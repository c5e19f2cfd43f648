/** Dotted field paths: str.split(".") and its inverse. */
module Paths {

  predicate DotFree(part: string) {
    '.' !in part
  }

  ghost predicate AllDotFree(parts: seq<string>) {
    forall p :: p in parts ==> DotFree(p)
  }

  function Join(parts: seq<string>): string
    requires parts != []
  {
    if |parts| == 1 then parts[0] else parts[0] + "." + Join(parts[1..])
  }

  function Split(path: string): (parts: seq<string>)
    ensures parts != []
  {
    if path == "" then [""]
    else
      var rest := Split(path[1..]);
      if path[0] == '.' then [""] + rest else [[path[0]] + rest[0]] + rest[1..]
  }

  lemma {:induction false} SplitPart(part: string)
    requires DotFree(part)
    ensures Split(part) == [part]
  {
    if part != "" {
      SplitPart(part[1..]);
      assert [part[0]] + part[1..] == part;
    }
  }

  lemma {:induction false} SplitPrefix(part: string, rest: string)
    requires DotFree(part)
    ensures Split(part + "." + rest) == [part] + Split(rest)
  {
    var path := part + "." + rest;
    if part == "" {
      assert path[1..] == rest;
    } else {
      assert path[1..] == part[1..] + "." + rest;
      SplitPrefix(part[1..], rest);
      assert [part[0]] + part[1..] == part;
    }
  }

  /** Splitting recovers the parts whenever no part contains a dot. */
  lemma {:induction false} SplitJoin(parts: seq<string>)
    requires parts != [] && AllDotFree(parts)
    ensures Split(Join(parts)) == parts
  {
    if |parts| == 1 {
      SplitPart(parts[0]);
    } else {
      SplitPrefix(parts[0], Join(parts[1..]));
      SplitJoin(parts[1..]);
    }
  }

  /** Joining recovers every path, and a split never leaves a dot behind. */
  lemma {:induction false} JoinSplit(path: string)
    ensures Join(Split(path)) == path && AllDotFree(Split(path))
  {
    if path != "" {
      var rest := Split(path[1..]);
      JoinSplit(path[1..]);
      if path[0] == '.' {
        assert ([""] + rest)[1..] == rest;
        assert "" + "." + Join(rest) == path;
      } else {
        var parts := [[path[0]] + rest[0]] + rest[1..];
        assert parts[1..] == rest[1..];
        assert Join(parts) == [path[0]] + Join(rest);
        assert [path[0]] + path[1..] == path;
        assert rest[0] in rest && DotFree(parts[0]);
        assert forall p :: p in rest[1..] ==> p in rest;
      }
    }
  }

  /** Distinct dot-free paths have distinct dotted texts. */
  lemma JoinInjective(a: seq<string>, b: seq<string>)
    requires a != [] && b != [] && AllDotFree(a) && AllDotFree(b)
    requires Join(a) == Join(b)
    ensures a == b
  {
    SplitJoin(a);
    SplitJoin(b);
  }
}
