/** The syntax of item paths: blocks, how they are written and how they are read. */
module QmlPathSyntax {
  import opened Common

  /** `[index]`, `{property}` or `{property=value}`. */
  datatype Filter = Index(index: nat) | Property(name: string, expected: Option<string>)

  /** `/key` or, searching at any depth, `//key`, with its filters. */
  datatype Block = Block(nested: bool, key: string, filters: seq<Filter>)

  const INT_MAX := 0x7fff_ffff

  /** Position of the first character of `s` in `stop`, or the length of `s`. */
  function Span(s: string, stop: set<char>): (n: nat)
    ensures n <= |s|
    ensures forall i :: 0 <= i < n ==> s[i] !in stop
    ensures n < |s| ==> s[n] in stop
  {
    if s == "" || s[0] in stop then 0 else 1 + Span(s[1..], stop)
  }

  // ---- numbers ----

  predicate IsDigit(c: char) { '0' <= c <= '9' }

  function DigitsValue(s: string): nat
    requires forall c <- s :: IsDigit(c)
  {
    if s == "" then 0 else
    var last := s[|s| - 1];
    assert IsDigit(last);
    10 * DigitsValue(s[..|s| - 1]) + (last as int - '0' as int)
  }

  const BLANKS := {' ', '\t', '\n', '\r', '\U{0B}', '\U{0C}'}

  function TrimLeft(s: string): string { if s != "" && s[0] in BLANKS then TrimLeft(s[1..]) else s }

  function TrimRight(s: string): string
  {
    if s != "" && s[|s| - 1] in BLANKS then TrimRight(s[..|s| - 1]) else s
  }

  /** A decimal number of 32 bits, with optional sign and surrounding blanks. */
  function ToInt(s: string): Option<int>
  {
    var t := TrimRight(TrimLeft(s));
    var negative := t != "" && t[0] == '-';
    var digits := if t != "" && (t[0] == '-' || t[0] == '+') then t[1..] else t;
    if digits == "" || exists c <- digits :: !IsDigit(c) then None
    else
      var value: int := DigitsValue(digits);
      if negative then (if value <= INT_MAX + 1 then Some(-value) else None)
      else if value <= INT_MAX then Some(value) else None
  }

  // ---- reading ----

  function ReadIndex(text: string): Option<Filter>
  {
    var n := ToInt(text);
    if n.None? || n.value < 0 then None else Some(Index(n.value))
  }

  function ReadProperty(text: string): Option<Filter>
  {
    var i := Span(text, {'='});
    var name := text[..i];
    if name == "" then None
    else if i == |text| then Some(Property(name, None))
    else if '=' in text[i + 1..] then None
    else Some(Property(name, Some(text[i + 1..])))
  }

  /** One filter from the front of `s`, and what follows it. */
  function ReadFilter(s: string): (r: Option<(Filter, string)>)
    requires s != ""
    ensures r.Some? ==> |r.value.1| < |s|
  {
    if s[0] != '[' && s[0] != '{' then None else
    var n := Span(s[1..], {if s[0] == '[' then ']' else '}'});
    if n == |s| - 1 then None else
    var text, rest := s[1..n + 1], s[n + 2..];
    var f := if s[0] == '[' then ReadIndex(text) else ReadProperty(text);
    if f.None? then None else Some((f.value, rest))
  }

  /** Filters up to the next block. */
  function ReadFilters(s: string): (r: Option<(seq<Filter>, string)>)
    ensures r.Some? ==> |r.value.1| <= |s| && (r.value.1 == "" || r.value.1[0] == '/')
    ensures r.Some? && s != "" && s[0] != '/' ==> |r.value.1| < |s| && r.value.0 != []
    decreases |s|
  {
    if s == "" || s[0] == '/' then Some(([], s)) else
    var f := ReadFilter(s);
    if f.None? then None else
    var fs := ReadFilters(f.value.1);
    if fs.None? then None else Some(([f.value.0] + fs.value.0, fs.value.1))
  }

  /** Key and filters of a block whose slashes have been read. */
  function ReadBody(nested: bool, s: string): (r: Option<(Block, string)>)
    ensures r.Some? ==> |r.value.1| <= |s| && (r.value.1 == "" || r.value.1[0] == '/')
    ensures r.Some? && s != "" && s[0] != '/' ==> |r.value.1| < |s|
  {
    var n := Span(s, {'/', '[', '{'});
    var fs := ReadFilters(s[n..]);
    if fs.None? then None else Some((Block(nested, s[..n], fs.value.0), fs.value.1))
  }

  /** One block from the front of `s`, and what follows it. */
  function ReadBlock(s: string): (r: Option<(Block, string)>)
    requires s != ""
    ensures r.Some? ==> |r.value.1| < |s| && (r.value.1 == "" || r.value.1[0] == '/')
  {
    if s[0] != '/' then ReadBody(false, s)
    else if s[1..] == "" then Some((Block(false, "", []), ""))
    else if s[1] != '/' then ReadBody(false, s[1..])
    else if s[2..] == "" then None
    else ReadBody(true, s[2..])
  }

  function ReadBlocks(s: string): Option<seq<Block>>
    requires s != ""
    decreases |s|
  {
    var b := ReadBlock(s);
    if b.None? then None
    else if b.value.1 == "" then Some([b.value.0])
    else
      var bs := ReadBlocks(b.value.1);
      if bs.None? then None else Some([b.value.0] + bs.value)
  }

  /** The blocks of a path, or none if it is not valid. */
  function Read(path: string): Option<seq<Block>>
  {
    if path == "" then None else ReadBlocks(path)
  }

  // ---- writing ----

  function Decimal(n: nat): string
  {
    if n < 10 then [('0' as int + n) as char] else Decimal(n / 10) + [('0' as int + n % 10) as char]
  }

  function WriteFilter(f: Filter): string
  {
    match f
    case Index(n) => "[" + Decimal(n) + "]"
    case Property(name, None) => "{" + name + "}"
    case Property(name, Some(v)) => "{" + name + "=" + v + "}"
  }

  function WriteFilters(fs: seq<Filter>): string
  {
    if fs == [] then "" else WriteFilter(fs[0]) + WriteFilters(fs[1..])
  }

  function WriteBlock(b: Block): string
  {
    "/" + (if b.nested then "/" else "") + b.key + WriteFilters(b.filters)
  }

  function Write(bs: seq<Block>): string
  {
    if bs == [] then "" else WriteBlock(bs[0]) + Write(bs[1..])
  }

  // ---- canonical lists ----

  predicate CanonicalFilter(f: Filter)
  {
    match f
    case Index(n) => n <= INT_MAX
    case Property(name, v) =>
      && name != "" && '=' !in name && '}' !in name
      && (v.Some? ==> '=' !in v.value && '}' !in v.value)
  }

  predicate CanonicalBlock(b: Block)
  {
    && '/' !in b.key && '[' !in b.key && '{' !in b.key
    && forall f <- b.filters :: CanonicalFilter(f)
  }

  predicate Bare(b: Block) { b.key == "" && b.filters == [] }

  /** At least one block; a bare `/` only at the end, and a bare `//` never there. */
  predicate Canonical(bs: seq<Block>)
  {
    && bs != []
    && (forall b <- bs :: CanonicalBlock(b))
    && (forall i :: 0 <= i < |bs| && Bare(bs[i]) ==> (bs[i].nested <==> i < |bs| - 1))
  }
}
