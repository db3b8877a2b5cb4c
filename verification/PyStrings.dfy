/** The string methods of Python that the services rely on: strip, split, join. */
module PyStrings {
  const COMMA := [',']
  const DOT := ['.']

  /** The characters that `str.strip()` removes. */
  predicate IsSpace(c: char) {
    var n := c as int;
    || 0x09 <= n <= 0x0D || 0x1C <= n <= 0x20 || n == 0x85 || n == 0xA0 || n == 0x1680
    || 0x2000 <= n <= 0x200A || n == 0x2028 || n == 0x2029 || n == 0x202F || n == 0x205F || n == 0x3000
  }

  function StripLeft(s: string): (r: string)
    ensures |r| <= |s| && r == s[|s| - |r|..]
    ensures r == [] || !IsSpace(r[0])
  {
    if s != [] && IsSpace(s[0]) then StripLeft(s[1..]) else s
  }

  function StripRight(s: string): (r: string)
    ensures |r| <= |s| && r == s[..|r|]
    ensures r == [] || !IsSpace(r[|r| - 1])
  {
    if s != [] && IsSpace(s[|s| - 1]) then StripRight(s[..|s| - 1]) else s
  }

  function Strip(s: string): string {
    StripRight(StripLeft(s))
  }

  predicate Trimmed(s: string) {
    s == [] || (!IsSpace(s[0]) && !IsSpace(s[|s| - 1]))
  }

  predicate Blank(s: string) {
    Strip(s) == []
  }

  lemma EmptyIsBlank()
    ensures Blank("")
  {
  }

  lemma StripTrims(s: string)
    ensures Trimmed(Strip(s))
    ensures forall c :: c in Strip(s) ==> c in s
    ensures Trimmed(s) ==> Strip(s) == s
  {
    var l := StripLeft(s);
    var r := StripRight(l);
    if r != [] {
      assert r[0] == l[0];
    }
  }

  predicate StartsWith(s: string, prefix: string) {
    |prefix| <= |s| && s[..|prefix|] == prefix
  }

  /** Position of the first occurrence of sep in s, or |s| when there is none. */
  function Find(s: string, sep: string): (i: nat)
    requires |sep| > 0
    ensures i <= |s|
    ensures i < |s| ==> StartsWith(s[i..], sep)
  {
    if s == [] || StartsWith(s, sep) then 0 else 1 + Find(s[1..], sep)
  }

  /** `s.split(sep)` for a non-empty separator. */
  function Split(s: string, sep: string): (parts: seq<string>)
    requires |sep| > 0
    ensures |parts| > 0
    decreases |s|
  {
    var i := Find(s, sep);
    if i == |s| then [s] else [s[..i]] + Split(s[i + |sep|..], sep)
  }

  /** `sep.join(parts)` */
  function Join(parts: seq<string>, sep: string): string {
    if parts == [] then []
    else if |parts| == 1 then parts[0]
    else parts[0] + sep + Join(parts[1..], sep)
  }

  lemma {:induction false} FindFirst(p: string, c: char, rest: string)
    requires c !in p
    ensures Find(p, [c]) == |p|
    ensures Find(p + [c] + rest, [c]) == |p|
  {
    var s := p + [c] + rest;
    if p == [] {
      assert StartsWith(s, [c]);
    } else {
      assert s[1..] == p[1..] + [c] + rest;
      assert s[..1][0] != [c][0] && p[..1][0] != [c][0];
      FindFirst(p[1..], c, rest);
    }
  }

  /** A separator-free piece in front of a separator is split off whole. */
  lemma SplitPiece(p: string, c: char, rest: string)
    requires c !in p
    ensures Split(p, [c]) == [p]
    ensures Split(p + [c] + rest, [c]) == [p] + Split(rest, [c])
  {
    FindFirst(p, c, rest);
    var s := p + [c] + rest;
    assert s[..|p|] == p && s[|p| + 1..] == rest;
  }

  /** Splitting a join of separator-free pieces gives the pieces back. */
  lemma {:induction false} SplitJoin(parts: seq<string>, c: char)
    requires |parts| > 0
    requires forall p :: p in parts ==> c !in p
    ensures Split(Join(parts, [c]), [c]) == parts
  {
    if |parts| == 1 {
      SplitPiece(parts[0], c, []);
    } else {
      SplitJoin(parts[1..], c);
      SplitPiece(parts[0], c, Join(parts[1..], [c]));
    }
  }

  lemma {:induction false} BeforeFind(s: string, c: char)
    ensures c !in s[..Find(s, [c])]
  {
    if s != [] && !StartsWith(s, [c]) {
      BeforeFind(s[1..], c);
      assert s[..1] != [c];
      assert s[..Find(s, [c])] == [s[0]] + s[1..][..Find(s[1..], [c])];
    }
  }

  lemma StartsWithOne(s: string, c: char)
    requires StartsWith(s, [c])
    ensures s != [] && s[0] == c
  {
    assert s[..1][0] == s[0];
  }

  /** The first separator cuts the string in two. */
  lemma FirstCut(s: string, c: char)
    ensures var i := Find(s, [c]);
            && c !in s[..i]
            && (i == |s| ==> c !in s)
            && (i < |s| ==> s == s[..i] + [c] + s[i + 1..])
  {
    hide Find, StartsWith;
    var i := Find(s, [c]);
    BeforeFind(s, c);
    if i == |s| {
      assert s[..i] == s;
    } else {
      StartsWithOne(s[i..], c);
      assert s[i] == c;
    }
  }

  /** No piece contains the separator, and joining the pieces restores the string. */
  lemma {:induction false} SplitPieces(s: string, c: char)
    ensures forall p :: p in Split(s, [c]) ==> c !in p
    ensures Join(Split(s, [c]), [c]) == s
    decreases |s|
  {
    var i := Find(s, [c]);
    FirstCut(s, c);
    if i < |s| {
      SplitPieces(s[i + 1..], c);
      assert Split(s, [c])[1..] == Split(s[i + 1..], [c]);
    }
  }

  lemma {:induction false} JoinConcat(ps: seq<string>, qs: seq<string>, sep: string)
    requires ps != [] && qs != []
    ensures Join(ps + qs, sep) == Join(ps, sep) + sep + Join(qs, sep)
  {
    var all := ps + qs;
    assert all[1..] == ps[1..] + qs;
    if |ps| > 1 {
      JoinConcat(ps[1..], qs, sep);
    } else {
      assert all[1..] == qs;
    }
  }

  /** Splitting distributes over a separator between two strings. */
  lemma SplitConcat(a: string, c: char, b: string)
    ensures Split(a + [c] + b, [c]) == Split(a, [c]) + Split(b, [c])
  {
    var ps, qs := Split(a, [c]), Split(b, [c]);
    SplitPieces(a, c);
    SplitPieces(b, c);
    JoinConcat(ps, qs, [c]);
    SplitJoin(ps + qs, c);
  }
}
