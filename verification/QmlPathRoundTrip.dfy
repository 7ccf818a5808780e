/** Reading and writing paths undo each other. */
module QmlPathRoundTrip {
  import opened Common
  import opened QmlPathSyntax

  lemma {:induction false} SpanSplit(a: string, b: string, stop: set<char>)
    requires forall c <- a :: c !in stop
    requires b == "" || b[0] in stop
    ensures Span(a + b, stop) == |a|
    decreases |a|
  {
    if a == "" {
      assert a + b == b;
    } else {
      assert (a + b)[1..] == a[1..] + b && (a + b)[0] == a[0];
      SpanSplit(a[1..], b, stop);
    }
  }

  // ---- numbers ----

  lemma {:induction false} DecimalDigits(n: nat)
    ensures Decimal(n) != "" && (forall c <- Decimal(n) :: IsDigit(c)) && DigitsValue(Decimal(n)) == n
  {
    var s, last := Decimal(n), ('0' as int + n % 10) as char;
    if n < 10 {
      assert s[..0] == "";
    } else {
      DecimalDigits(n / 10);
      assert s[..|s| - 1] == Decimal(n / 10);
    }
  }

  lemma DecimalReads(n: nat)
    requires n <= INT_MAX
    ensures ToInt(Decimal(n)) == Some(n)
  {
    var s := Decimal(n);
    DecimalDigits(n);
    assert IsDigit(s[0]) && IsDigit(s[|s| - 1]);
    assert TrimLeft(s) == s && TrimRight(s) == s;
  }

  // ---- filters ----

  /** What stands between the brackets of a filter. */
  function Inside(f: Filter): string
  {
    match f
    case Index(n) => Decimal(n)
    case Property(name, None) => name
    case Property(name, Some(v)) => name + "=" + v
  }

  function Closing(f: Filter): char { if f.Index? then ']' else '}' }

  function Opening(f: Filter): char { if f.Index? then '[' else '{' }

  lemma FilterShape(f: Filter, rest: string)
    ensures WriteFilter(f) + rest == [Opening(f)] + (Inside(f) + ([Closing(f)] + rest))
  {
  }

  lemma InsideReads(f: Filter)
    requires CanonicalFilter(f)
    ensures Closing(f) !in Inside(f)
    ensures (if f.Index? then ReadIndex(Inside(f)) else ReadProperty(Inside(f))) == Some(f)
  {
    match f
    case Index(n) =>
      DecimalReads(n);
      DecimalDigits(n);
    case Property(name, None) =>
      assert name + "" == name;
      SpanSplit(name, "", {'='});
    case Property(name, Some(v)) =>
      assert name + "=" + v == name + ("=" + v);
      SpanSplit(name, "=" + v, {'='});
      var text := name + "=" + v;
      assert text[|name| + 1..] == v && text[..|name|] == name;
  }

  lemma FilterReads(f: Filter, rest: string)
    requires CanonicalFilter(f)
    ensures ReadFilter(WriteFilter(f) + rest) == Some((f, rest))
  {
    FilterShape(f, rest);
    InsideReads(f);
    var text := Inside(f);
    var s := [Opening(f)] + (text + ([Closing(f)] + rest));
    assert s[1..] == text + ([Closing(f)] + rest);
    SpanSplit(text, [Closing(f)] + rest, {Closing(f)});
    assert s[1..|text| + 1] == text && s[|text| + 2..] == rest;
  }

  lemma ReadFiltersStep(s: string, f: Filter, mid: string, fs: seq<Filter>, rest: string)
    requires s != "" && s[0] != '/'
    requires ReadFilter(s) == Some((f, mid)) && ReadFilters(mid) == Some((fs, rest))
    ensures ReadFilters(s) == Some(([f] + fs, rest))
  {
  }

  lemma Assoc(a: string, b: string, c: string)
    ensures a + b + c == a + (b + c) && "" + c == c && a + "" == a
  {
  }

  lemma FilterStart(f: Filter, rest: string)
    ensures WriteFilter(f) + rest != "" && (WriteFilter(f) + rest)[0] == Opening(f)
  {
    FilterShape(f, rest);
  }

  lemma {:induction false} FiltersRead(fs: seq<Filter>, rest: string)
    requires forall f <- fs :: CanonicalFilter(f)
    requires rest == "" || rest[0] == '/'
    ensures ReadFilters(WriteFilters(fs) + rest) == Some((fs, rest))
    decreases |fs|
  {
    if fs == [] {
      Assoc("", "", rest);
    } else {
      var f, more := fs[0], fs[1..];
      FiltersRead(more, rest);
      FirstFilterReads(f, more, WriteFilters(more), rest);
      assert [f] + more == fs;
    }
  }

  lemma FirstFilterReads(f: Filter, more: seq<Filter>, written: string, rest: string)
    requires CanonicalFilter(f) && ReadFilters(written + rest) == Some((more, rest))
    ensures ReadFilters(WriteFilter(f) + written + rest) == Some(([f] + more, rest))
  {
    Assoc(WriteFilter(f), written, rest);
    FilterStart(f, written + rest);
    FilterReads(f, written + rest);
    ReadFiltersStep(WriteFilter(f) + (written + rest), f, written + rest, more, rest);
  }

  lemma FiltersStart(fs: seq<Filter>)
    requires fs != []
    ensures WriteFilters(fs) != "" && (WriteFilters(fs)[0] == '[' || WriteFilters(fs)[0] == '{')
  {
    FilterShape(fs[0], "");
    assert WriteFilter(fs[0]) + "" == WriteFilter(fs[0]);
  }

  // ---- blocks ----

  lemma BodyReads(b: Block, rest: string)
    requires CanonicalBlock(b) && (rest == "" || rest[0] == '/')
    ensures ReadBody(b.nested, b.key + (WriteFilters(b.filters) + rest)) == Some((b, rest))
  {
    var tail := WriteFilters(b.filters) + rest;
    if b.filters != [] {
      FiltersStart(b.filters);
    } else {
      assert tail == rest;
    }
    SpanSplit(b.key, tail, {'/', '[', '{'});
    assert (b.key + tail)[|b.key|..] == tail && (b.key + tail)[..|b.key|] == b.key;
    FiltersRead(b.filters, rest);
  }

  lemma SingleSlash(body: string)
    requires body == "" || body[0] != '/'
    ensures ReadBlock("/" + body) == if body == "" then Some((Block(false, "", []), "")) else ReadBody(false, body)
  {
    var s := "/" + body;
    assert s[1..] == body;
  }

  lemma DoubleSlash(body: string)
    ensures ReadBlock("//" + body) == if body == "" then None else ReadBody(true, body)
  {
    var s := "//" + body;
    assert s[1..] == "/" + body && s[2..] == body && s[1] == '/';
  }

  lemma Concat(a: string, b: string, c: string, d: string)
    ensures a + b + c + d == a + (b + (c + d))
  {
  }

  lemma BodyStart(key: string, filters: string, rest: string)
    requires '/' !in key && (filters != "" ==> filters[0] != '/') && (key == "" && filters == "" ==> rest == "")
    ensures var body := key + (filters + rest); body == "" || body[0] != '/'
  {
    var body := key + (filters + rest);
    if key != "" {
      assert body[0] == key[0] && key[0] in key;
    } else if filters != "" {
      assert body[0] == filters[0];
    }
  }

  /** With the filters written out as `filters`. */
  lemma SlashesRead(b: Block, filters: string, rest: string)
    requires ReadBody(b.nested, b.key + (filters + rest)) == Some((b, rest))
    requires '/' !in b.key && (rest == "" || rest[0] == '/')
    requires if b.filters == [] then filters == "" else filters != "" && filters[0] != '/'
    requires Bare(b) ==> (b.nested <==> rest != "")
    ensures ReadBlock("/" + (if b.nested then "/" else "") + b.key + filters + rest) == Some((b, rest))
  {
    var body := b.key + (filters + rest);
    var slashes := "/" + (if b.nested then "/" else "");
    assert slashes == if b.nested then "//" else "/";
    Concat(slashes, b.key, filters, rest);
    if b.nested {
      DoubleSlash(body);
    } else {
      BodyStart(b.key, filters, rest);
      SingleSlash(body);
    }
  }

  lemma BlockReads(b: Block, rest: string)
    requires CanonicalBlock(b) && (rest == "" || rest[0] == '/')
    requires Bare(b) ==> (b.nested <==> rest != "")
    ensures ReadBlock(WriteBlock(b) + rest) == Some((b, rest))
  {
    BodyReads(b, rest);
    if b.filters != [] {
      FiltersStart(b.filters);
    }
    SlashesRead(b, WriteFilters(b.filters), rest);
  }

  lemma ReadBlocksStep(s: string, b: Block, rest: string)
    requires s != "" && ReadBlock(s) == Some((b, rest))
    ensures rest == "" ==> ReadBlocks(s) == Some([b])
    ensures rest != "" && ReadBlocks(rest).Some? ==> ReadBlocks(s) == Some([b] + ReadBlocks(rest).value)
  {
  }

  lemma FirstBlockReads(b: Block, written: string, more: seq<Block>)
    requires CanonicalBlock(b) && (Bare(b) ==> (b.nested <==> written != ""))
    requires if more == [] then written == ""
             else written != "" && written[0] == '/' && ReadBlocks(written) == Some(more)
    ensures WriteBlock(b) + written != "" && (WriteBlock(b) + written)[0] == '/'
    ensures ReadBlocks(WriteBlock(b) + written) == Some([b] + more)
  {
    BlockReads(b, written);
    ReadBlocksStep(WriteBlock(b) + written, b, written);
    assert more == [] ==> [b] + more == [b];
  }

  lemma {:induction false} BlocksRead(bs: seq<Block>)
    requires Canonical(bs)
    ensures Write(bs) != "" && Write(bs)[0] == '/' && ReadBlocks(Write(bs)) == Some(bs)
    decreases |bs|
  {
    var b, more := bs[0], bs[1..];
    assert forall i :: 0 <= i < |more| ==> more[i] == bs[i + 1];
    if more != [] {
      BlocksRead(more);
    }
    FirstBlockReads(b, Write(more), more);
    assert [b] + more == bs;
  }

  /** Writing any canonical list and reading it back gives the same list. */
  lemma ReadUndoesWrite(bs: seq<Block>)
    requires Canonical(bs)
    ensures Read(Write(bs)) == Some(bs)
  {
    BlocksRead(bs);
  }

  // ---- what is accepted is canonical ----

  lemma ToIntRange(s: string)
    ensures ToInt(s).Some? ==> ToInt(s).value <= INT_MAX
  {
  }

  lemma FilterIsCanonical(s: string)
    requires s != ""
    ensures var r := ReadFilter(s); r.Some? ==> CanonicalFilter(r.value.0)
  {
    var r := ReadFilter(s);
    if r.Some? {
      var n := Span(s[1..], {if s[0] == '[' then ']' else '}'});
      var text := s[1..n + 1];
      ToIntRange(text);
      assert forall i :: 0 <= i < n ==> text[i] == s[1..][i];
    }
  }

  lemma {:induction false} FiltersAreCanonical(s: string)
    ensures var r := ReadFilters(s); r.Some? ==> forall f <- r.value.0 :: CanonicalFilter(f)
    decreases |s|
  {
    if ReadFilters(s).Some? && s != "" && s[0] != '/' {
      FilterIsCanonical(s);
      FiltersAreCanonical(ReadFilter(s).value.1);
    }
  }

  lemma BlockIsCanonical(s: string)
    requires s != ""
    ensures var r := ReadBlock(s);
            r.Some? ==> CanonicalBlock(r.value.0)
                        && (Bare(r.value.0) ==> (r.value.0.nested <==> r.value.1 != ""))
  {
    if ReadBlock(s).Some? {
      if s[0] != '/' {
        BodyIsCanonical(false, s);
      } else if s[1..] != "" && s[1] != '/' {
        BodyIsCanonical(false, s[1..]);
      } else if s[1..] != "" {
        BodyIsCanonical(true, s[2..]);
      }
    }
  }

  lemma BodyIsCanonical(nested: bool, s: string)
    requires s != ""
    ensures var r := ReadBody(nested, s);
            r.Some? ==> CanonicalBlock(r.value.0) && (Bare(r.value.0) ==> s[0] == '/' && r.value.1 == s)
  {
    var n := Span(s, {'/', '[', '{'});
    FiltersAreCanonical(s[n..]);
    assert n == 0 ==> s[n..] == s;
  }

  /** Every accepted path reads as a canonical list. */
  lemma {:induction false} AcceptedIsCanonical(s: string)
    requires s != ""
    ensures ReadBlocks(s).Some? ==> Canonical(ReadBlocks(s).value)
    decreases |s|
  {
    if ReadBlocks(s).Some? {
      BlockIsCanonical(s);
      var b, rest := ReadBlock(s).value.0, ReadBlock(s).value.1;
      if rest != "" {
        AcceptedIsCanonical(rest);
        var bs := ReadBlocks(s).value;
        assert forall i :: 1 <= i < |bs| ==> bs[i] == ReadBlocks(rest).value[i - 1];
        assert forall x <- bs :: x == b || x in ReadBlocks(rest).value;
      }
    }
  }

  /** Every accepted path means the same as the canonical way to write it. */
  lemma WriteNormalises(path: string)
    ensures Read(path).Some? ==> Canonical(Read(path).value) && Read(Write(Read(path).value)) == Read(path)
  {
    if Read(path).Some? {
      AcceptedIsCanonical(path);
      ReadUndoesWrite(Read(path).value);
    }
  }
}
