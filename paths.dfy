/** `Path.ChangeExtension` as the index service uses it to place its `.vec` and `.ids`
    files beside the graph file (Windows separators, .NET Core behaviour). */
module Paths {
  import opened Wrappers

  predicate IsSeparator(c: char) {
    c == '\\' || c == '/'
  }

  /** Scans `p[..i]` backwards for a `.`, giving up at a directory separator. */
  function DotBefore(p: string, i: nat): (d: Option<nat>)
    requires i <= |p|
    ensures d.Some? ==> d.value < i && p[d.value] == '.'
    ensures d.Some? ==> forall k :: d.value < k < i ==> p[k] != '.' && !IsSeparator(p[k])
    ensures d.None? ==> forall k :: 0 <= k < i && p[k] == '.' ==> exists m :: k < m < i && IsSeparator(p[m])
  {
    if i == 0 then None
    else if p[i - 1] == '.' then Some(i - 1)
    else if IsSeparator(p[i - 1]) then None
    else DotBefore(p, i - 1)
  }

  /** The part of p kept by `ChangeExtension`: everything before the extension's dot,
      or all of p when its last segment has no dot. */
  function Stem(p: string): (s: string)
    ensures s <= p
    ensures s == p || (p[|s|] == '.' && forall k :: |s| < k < |p| ==> p[k] != '.' && !IsSeparator(p[k]))
  {
    match DotBefore(p, |p|)
    case Some(d) => p[..d]
    case None => p
  }

  /** An extension as the service passes it: a dot, then no dot and no separator. */
  predicate PlainExtension(e: string) {
    |e| >= 1 && e[0] == '.' && forall k :: 1 <= k < |e| ==> e[k] != '.' && !IsSeparator(e[k])
  }

  /** `Path.ChangeExtension(p, ext)`: an empty path stays empty; otherwise the old
      extension, if any, is replaced by ext, a dot being added when ext lacks one. */
  function ChangeExtension(p: string, ext: string): (r: string)
    ensures p == [] ==> r == []
    ensures p != [] ==> Stem(p) <= r
    ensures p != [] && |ext| >= 1 && ext[0] == '.' ==> r == Stem(p) + ext
    ensures p != [] && !(|ext| >= 1 && ext[0] == '.') ==> r == Stem(p) + "." + ext
  {
    if p == [] then []
    else if |ext| >= 1 && ext[0] == '.' then Stem(p) + ext
    else Stem(p) + "." + ext
  }

  lemma {:induction false} DotBeforeExtension(stem: string, e: string, i: nat)
    requires PlainExtension(e) && |stem| < i <= |stem + e|
    ensures DotBefore(stem + e, i) == Some(|stem|)
  {
    var q := stem + e;
    if i - 1 > |stem| {
      assert q[i - 1] == e[i - 1 - |stem|];
      DotBeforeExtension(stem, e, i - 1);
    }
  }

  /** Changing the extension twice is changing it once to the second one. */
  lemma ChangeExtensionTwice(p: string, e1: string, e2: string)
    requires p != [] && PlainExtension(e1)
    ensures ChangeExtension(ChangeExtension(p, e1), e2) == ChangeExtension(p, e2)
  {
    var stem := Stem(p);
    var q := stem + e1;
    DotBeforeExtension(stem, e1, |q|);
    assert q[..|stem|] == stem;
  }

  /** Two different dotted extensions give two different paths, and a path carrying a
      plain extension keeps it. */
  lemma ChangeExtensionDistinct(p: string, e1: string, e2: string)
    requires p != [] && PlainExtension(e1) && PlainExtension(e2) && e1 != e2
    ensures ChangeExtension(p, e1) != ChangeExtension(p, e2)
    ensures Stem(ChangeExtension(p, e1)) == Stem(p)
  {
    var stem := Stem(p);
    var q1 := stem + e1;
    var q2 := stem + e2;
    assert q1[|stem|..] == e1 && q2[|stem|..] == e2;
    DotBeforeExtension(stem, e1, |q1|);
    assert q1[..|stem|] == stem;
  }
}
