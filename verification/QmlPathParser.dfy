/** The path parser: it moves a position through the input and collects blocks. */
module QmlPathParser {
  import opened Common
  import opened QmlPathSyntax

  function Prepend<T>(xs: seq<T>, r: Option<(seq<T>, string)>): Option<(seq<T>, string)>
  {
    if r.None? then None else Some((xs + r.value.0, r.value.1))
  }

  lemma PrependOne<T>(xs: seq<T>, x: T, r: Option<(seq<T>, string)>)
    ensures Prepend(xs + [x], r) == Prepend(xs, Prepend([x], r))
  {
    if r.Some? {
      assert xs + [x] + r.value.0 == xs + ([x] + r.value.0);
    }
  }

  lemma PrependNothing<T>(r: Option<(seq<T>, string)>)
    ensures Prepend([], r) == r
  {
    if r.Some? {
      assert [] + r.value.0 == r.value.0;
    }
  }

  function Join(bs: seq<Block>, r: Option<seq<Block>>): Option<seq<Block>>
  {
    if r.None? then None else Some(bs + r.value)
  }

  lemma JoinOne(bs: seq<Block>, b: Block, r: Option<seq<Block>>)
    ensures Join(bs + [b], r) == Join(bs, Join([b], r)) && Join([], r) == r
    ensures Join(bs, Some([b])) == Some(bs + [b])
  {
    if r.Some? {
      assert bs + [b] + r.value == bs + ([b] + r.value) && [] + r.value == r.value;
    }
  }

  lemma SpanIs(s: string, stop: set<char>, n: nat)
    requires n <= |s| && (forall i :: 0 <= i < n ==> s[i] !in stop) && (n < |s| ==> s[n] in stop)
    ensures Span(s, stop) == n
  {
  }

  /** Collect characters up to one in `stop`. */
  method Take(path: string, start: nat, stop: set<char>) returns (text: string, pos: nat)
    requires start <= |path|
    ensures pos == start + Span(path[start..], stop) && pos <= |path| && text == path[start..pos]
  {
    text, pos := "", start;
    while pos < |path| && path[pos] !in stop
      invariant start <= pos <= |path| && text == path[start..pos]
      invariant forall i :: start <= i < pos ==> path[i] !in stop
    {
      text := text + [path[pos]];
      pos := pos + 1;
    }
    SpanIs(path[start..], stop, pos - start);
  }

  /** One filter; on failure the position means nothing. */
  method ParseFilter(path: string, start: nat) returns (filter: Option<Filter>, pos: nat)
    requires start < |path|
    ensures pos <= |path|
    ensures match ReadFilter(path[start..])
            case None => filter.None?
            case Some((f, rest)) => filter == Some(f) && rest == path[pos..] && start < pos
  {
    var s := path[start..];
    pos := start;
    if path[pos] == '[' {
      pos := pos + 1;
      assert s[1..] == path[pos..];
      var number: string;
      number, pos := Take(path, pos, {']'});
      if pos == |path| {
        return None, pos;
      }
      pos := pos + 1;
      assert number == s[1..Span(s[1..], {']'}) + 1];
      assert path[pos..] == s[Span(s[1..], {']'}) + 2..];
      var index := ToInt(number);
      if index.None? || index.value < 0 {
        return None, pos;
      }
      return Some(Index(index.value)), pos;
    }
    if path[pos] == '{' {
      pos := pos + 1;
      assert s[1..] == path[pos..];
      var text: string;
      text, pos := Take(path, pos, {'}'});
      if pos == |path| {
        return None, pos;
      }
      pos := pos + 1;
      assert text == s[1..Span(s[1..], {'}'}) + 1];
      assert path[pos..] == s[Span(s[1..], {'}'}) + 2..];
      return ReadProperty(text), pos;
    }
    return None, pos;
  }

  method ParseFilters(path: string, start: nat) returns (filters: Option<seq<Filter>>, pos: nat)
    requires start <= |path|
    ensures pos <= |path|
    ensures match ReadFilters(path[start..])
            case None => filters.None?
            case Some((fs, rest)) => filters == Some(fs) && rest == path[pos..]
  {
    var fs: seq<Filter> := [];
    pos := start;
    PrependNothing(ReadFilters(path[start..]));
    while pos < |path| && path[pos] != '/'
      invariant start <= pos <= |path|
      invariant ReadFilters(path[start..]) == Prepend(fs, ReadFilters(path[pos..]))
    {
      var filter, next := ParseFilter(path, pos);
      if filter.None? {
        return None, pos;
      }
      PrependOne(fs, filter.value, ReadFilters(path[next..]));
      fs := fs + [filter.value];
      pos := next;
    }
    assert fs + [] == fs;
    return Some(fs), pos;
  }

  method ParsePath(path: string, start: nat) returns (block: Option<Block>, pos: nat)
    requires start < |path|
    ensures pos <= |path|
    ensures match ReadBlock(path[start..])
            case None => block.None?
            case Some((b, rest)) => block == Some(b) && rest == path[pos..] && start < pos
  {
    ghost var s := path[start..];
    var nested := false;
    pos := start;
    if path[pos] == '/' {
      pos := pos + 1;
      assert s[1..] == path[pos..];
      if pos == |path| {
        return Some(Block(false, "", [])), pos;
      }
      if path[pos] == '/' {
        nested := true;
        pos := pos + 1;
        assert s[2..] == path[pos..];
        if pos == |path| {
          return None, pos;
        }
      }
    }
    block, pos := ParseBody(path, pos, nested);
  }

  /** The key and the filters of a block. */
  method ParseBody(path: string, start: nat, nested: bool) returns (block: Option<Block>, pos: nat)
    requires start < |path|
    ensures pos <= |path|
    ensures match ReadBody(nested, path[start..])
            case None => block.None?
            case Some((b, rest)) => block == Some(b) && rest == path[pos..]
  {
    ghost var body := path[start..];
    var key, next := Take(path, start, {'/', '[', '{'});
    assert key == body[..Span(body, {'/', '[', '{'})] && path[next..] == body[Span(body, {'/', '[', '{'})..];
    var filters, end := ParseFilters(path, next);
    if filters.None? {
      return None, end;
    }
    return Some(Block(nested, key, filters.value)), end;
  }

  /** The parsed blocks, or an empty list for a path that is not valid. */
  method ParseAll(path: string) returns (blocks: seq<Block>)
    ensures blocks == if Read(path).Some? then Read(path).value else []
  {
    if path == "" {
      return [];
    }
    var pos := 0;
    blocks := [];
    assert path[pos..] == path;
    JoinOne([], Block(false, "", []), ReadBlocks(path));
    while true
      invariant pos < |path|
      invariant ReadBlocks(path) == Join(blocks, ReadBlocks(path[pos..]))
      decreases |path| - pos
    {
      var block, next := ParsePath(path, pos);
      if block.None? {
        return [];
      }
      JoinOne(blocks, block.value, if next < |path| then ReadBlocks(path[next..]) else None);
      blocks := blocks + [block.value];
      pos := next;
      if pos == |path| || path[pos] != '/' {
        break;
      }
    }
  }
}
