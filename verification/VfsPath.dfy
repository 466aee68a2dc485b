/** path_normalize (src/vfs.c): against splitting at slashes and folding the parts. */
module VfsPath {
  import opened Common

  const PATH_MAX: nat := 64
  const SLASH: byte := 47
  const DOT: byte := 46

  type Part = seq<byte>

  // ---------------------------------------------------------------- splitting and joining

  function SkipSlashes(s: seq<byte>): (r: seq<byte>)
    ensures |r| <= |s| && (r != [] ==> r[0] != SLASH)
  {
    if s != [] && s[0] == SLASH then SkipSlashes(s[1..]) else s
  }

  /** The bytes up to the first slash. */
  function FirstPart(s: seq<byte>): (r: Part)
    ensures |r| <= |s| && r == s[..|r|] && SLASH !in r
    ensures |r| < |s| ==> s[|r|] == SLASH
    ensures s != [] && s[0] != SLASH ==> r != []
  {
    if s == [] || s[0] == SLASH then []
    else
      var rest := FirstPart(s[1..]);
      assert s[..|rest| + 1] == [s[0]] + s[1..][..|rest|];
      [s[0]] + rest
  }

  /** The parts between slashes, empty ones left out. */
  function Parts(s: seq<byte>): seq<Part>
    decreases |s|
  {
    var t := SkipSlashes(s);
    if t == [] then [] else [FirstPart(t)] + Parts(t[|FirstPart(t)|..])
  }

  function Join(parts: seq<Part>): seq<byte> {
    if parts == [] then []
    else if |parts| == 1 then parts[0]
    else Join(parts[..|parts| - 1]) + [SLASH] + parts[|parts| - 1]
  }

  predicate IsDot(p: Part) { p == [DOT] }
  predicate IsDotDot(p: Part) { p == [DOT, DOT] }

  /** One part applied to the path so far; a part or a path of 64 bytes or more fails. */
  function Apply(stack: seq<Part>, p: Part): Option<seq<Part>> {
    if |p| >= PATH_MAX then None
    else if IsDot(p) then Some(stack)
    else if IsDotDot(p) then Some(if stack == [] then [] else stack[..|stack| - 1])
    else if |Join(stack + [p])| >= PATH_MAX then None
    else Some(stack + [p])
  }

  function Fold(stack: seq<Part>, parts: seq<Part>): Option<seq<Part>>
    decreases |parts|
  {
    if parts == [] then Some(stack)
    else
      match Apply(stack, parts[0])
      case None => None
      case Some(next) => Fold(next, parts[1..])
  }

  /** What a path means: its parts folded, or nothing when that leaves no part or grows too long. */
  function Normalized(src: seq<byte>): Option<seq<byte>> {
    match Fold([], Parts(src))
    case None => None
    case Some(stack) => if stack == [] then None else Some(Join(stack))
  }

  // ---------------------------------------------------------------- the loop

  predicate Plain(p: Part) { p != [] && SLASH !in p && !IsDot(p) && !IsDotDot(p) }

  predicate AllPlain(stack: seq<Part>) { forall k :: 0 <= k < |stack| ==> Plain(stack[k]) }

  lemma JoinPush(stack: seq<Part>, p: Part)
    ensures Join(stack + [p]) == if stack == [] then p else Join(stack) + [SLASH] + p
  {
    assert (stack + [p])[..|stack|] == stack;
  }

  lemma JoinEmpty(stack: seq<Part>)
    requires AllPlain(stack)
    ensures Join(stack) == [] <==> stack == []
  {
    if |stack| == 1 { assert Plain(stack[0]); }
  }

  /** Skipping back to the last slash takes off the last part. */
  method Pop(dst: seq<byte>, ghost stack: seq<Part>) returns (out: seq<byte>)
    requires AllPlain(stack) && dst == Join(stack)
    ensures out == Join(if stack == [] then [] else stack[..|stack| - 1])
  {
    out := dst;
    ghost var last := if stack == [] then [] else stack[|stack| - 1];
    ghost var front := if stack == [] then [] else stack[..|stack| - 1];
    JoinEmpty(stack);
    if stack != [] {
      assert stack == front + [last];
      JoinPush(front, last);
      assert Plain(stack[|stack| - 1]);
    }
    ghost var base := |dst| - |last|;
    forall k | base <= k < |dst| ensures dst[k] != SLASH { assert dst[k] == last[k - base]; }
    while out != [] && out[|out| - 1] != SLASH
      invariant base <= |out| <= |dst| && out == dst[..|out|]
    {
      assert |out| > base by {
        if |out| == base { AtSlash(dst, stack, front, last); }
      }
      out := out[..|out| - 1];
    }
    if out != [] { out := out[..|out| - 1]; }
  }

  /** Before the last part there is a slash, or nothing. */
  lemma AtSlash(dst: seq<byte>, stack: seq<Part>, front: seq<Part>, last: Part)
    requires dst == Join(stack) && stack != [] && stack == front + [last]
    ensures |last| <= |dst| && (|dst| > |last| ==> dst[|dst| - |last| - 1] == SLASH)
  {
    JoinPush(front, last);
  }

  /** One part read: "." stays, ".." goes up, any other part goes on with a slash before it. */
  method ApplyPart(path: seq<byte>, part: Part, ghost stack: seq<Part>) returns (r: Option<seq<byte>>)
    requires AllPlain(stack) && path == Join(stack) && |path| < PATH_MAX
    requires part != [] && SLASH !in part && |part| < PATH_MAX
    ensures r.Some? <==> Apply(stack, part).Some?
    ensures r.Some? ==>
      var next := Apply(stack, part).value; AllPlain(next) && r.value == Join(next) && |r.value| < PATH_MAX
  {
    hide Join;
    var out := path;
    if |part| == 1 && part[0] == DOT { return Some(out); }
    if |part| == 2 && part[0] == DOT && part[1] == DOT {
      ShorterJoin(stack);
      out := Pop(out, stack);
      return Some(out);
    }
    JoinEmpty(stack);
    JoinPush(stack, part);
    if out != [] {
      if |out| + 1 >= PATH_MAX { return None; }
      out := out + [SLASH];
    }
    if |out| + |part| >= PATH_MAX { return None; }
    r := Some(out + part);
  }

  lemma NoParts(s: seq<byte>)
    ensures SkipSlashes(s) == [] ==> forall stack :: Fold(stack, Parts(s)) == Some(stack)
    ensures s == [] ==> SkipSlashes(s) == []
  {}

  lemma JoinNone()
    ensures Join([]) == [] && AllPlain([])
  {}

  lemma SkipOne(s: seq<byte>)
    requires s != [] && s[0] == SLASH
    ensures SkipSlashes(s) == SkipSlashes(s[1..])
  {}

  lemma SkipNone(s: seq<byte>)
    requires s == [] || s[0] != SLASH
    ensures SkipSlashes(s) == s
  {}

  lemma FoldFirst(stack: seq<Part>, s: seq<byte>, rest: seq<byte>)
    requires rest == SkipSlashes(s) && rest != []
    ensures var part := FirstPart(rest);
      Fold(stack, Parts(s)) ==
      (if Apply(stack, part).None? then None else Fold(Apply(stack, part).value, Parts(rest[|part|..])))
    ensures |FirstPart(rest)| >= PATH_MAX ==> Apply(stack, FirstPart(rest)) == None
  {
    hide Apply, SkipSlashes, FirstPart;
    LongFails(stack, FirstPart(rest));
    var part := FirstPart(rest);
    assert Parts(s)[0] == part && Parts(s)[1..] == Parts(rest[|part|..]);
  }

  lemma LongFails(stack: seq<Part>, p: Part)
    ensures |p| >= PATH_MAX ==> Apply(stack, p) == None
  {}

  /** path_normalize. */
  method PathNormalize(src: seq<byte>) returns (dst: Option<seq<byte>>)
    ensures dst == Normalized(src)
  {
    hide Parts, Fold, Apply, Join, SkipSlashes, AllPlain;
    if src == [] { NoParts(src); return None; }
    var out: seq<byte> := [];
    var rest := src;
    ghost var stack: seq<Part> := [];
    JoinNone();
    while rest != []
      invariant AllPlain(stack) && out == Join(stack) && |out| < PATH_MAX
      invariant Fold([], Parts(src)) == Fold(stack, Parts(rest))
      decreases |rest|
    {
      ghost var before := rest;
      while rest != [] && rest[0] == SLASH
        invariant |rest| <= |before| && SkipSlashes(rest) == SkipSlashes(before)
      {
        SkipOne(rest);
        rest := rest[1..];
      }
      SkipNone(rest);
      if rest == [] { NoParts(before); break; }
      var part, tooLong := ReadPart(rest);
      FoldFirst(stack, before, rest);
      if tooLong { return None; }
      rest := rest[|part|..];
      var next := ApplyPart(out, part, stack);
      if next.None? { return None; }
      out := next.value;
      stack := Apply(stack, part).value;
    }
    NoParts([]);
    JoinEmpty(stack);
    dst := if out != [] then Some(out) else None;
  }

  lemma ShorterJoin(stack: seq<Part>)
    ensures stack != [] ==> |Join(stack[..|stack| - 1])| <= |Join(stack)|
  {
    if stack != [] {
      assert stack == stack[..|stack| - 1] + [stack[|stack| - 1]];
      JoinPush(stack[..|stack| - 1], stack[|stack| - 1]);
    }
  }

  /** The part before the next slash, or that it has 64 bytes or more. */
  method ReadPart(s: seq<byte>) returns (part: Part, tooLong: bool)
    requires s != [] && s[0] != SLASH
    ensures tooLong <==> |FirstPart(s)| >= PATH_MAX
    ensures !tooLong ==> part == FirstPart(s)
  {
    part, tooLong := [], false;
    var i := 0;
    while i < |s| && s[i] != SLASH
      invariant 0 <= i <= |s| && i < PATH_MAX && part == s[..i] && SLASH !in part
    {
      PartReaches(s, i);
      if i + 1 >= PATH_MAX { return part, true; }
      part := part + [s[i]];
      i := i + 1;
    }
    PartEnds(s, i);
  }

  lemma {:induction false} PartEnds(s: seq<byte>, i: nat)
    requires i <= |s| && SLASH !in s[..i] && (i < |s| ==> s[i] == SLASH)
    ensures FirstPart(s) == s[..i]
  {
    if i > 0 {
      assert s[..i][0] == s[0];
      assert s[1..][..i - 1] == s[..i][1..];
      PartEnds(s[1..], i - 1);
    }
  }

  lemma {:induction false} PartReaches(s: seq<byte>, i: nat)
    requires i < |s| && SLASH !in s[..i] && s[i] != SLASH
    ensures |FirstPart(s)| > i
  {
    if i > 0 {
      assert s[..i][0] == s[0];
      assert s[1..][..i - 1] == s[..i][1..];
      PartReaches(s[1..], i - 1);
    }
  }

  // ---------------------------------------------------------------- what a normal path looks like

  /** Splitting gives back the parts that were joined. */
  lemma {:induction false} PartsOfJoin(stack: seq<Part>, tail: seq<byte>)
    requires AllPlain(stack) && (tail == [] || tail[0] == SLASH)
    ensures Parts(Join(stack) + tail) == stack + Parts(tail)
    decreases |stack|
  {
    if stack == [] {
      assert Join(stack) + tail == tail;
    } else {
      var front, last := stack[..|stack| - 1], stack[|stack| - 1];
      assert Plain(last) && AllPlain(front);
      hide Parts, Join, Plain, AllPlain;
      if front == [] {
        PartThen(last, tail);
        assert stack == [last];
      } else {
        JoinTail(stack, tail);
        PartsOfJoin(front, [SLASH] + last + tail);
        SlashThen(last, tail);
        Regroup(stack, Parts(tail));
      }
    }
  }

  lemma JoinTail(stack: seq<Part>, tail: seq<byte>)
    requires |stack| > 1
    ensures Join(stack) + tail == Join(stack[..|stack| - 1]) + ([SLASH] + stack[|stack| - 1] + tail)
  {
    var front, last := Join(stack[..|stack| - 1]), stack[|stack| - 1];
    assert Join(stack) == front + [SLASH] + last;
    hide Join;
    ThreeParts(front, [SLASH], last, tail);
  }

  lemma ThreeParts(a: seq<byte>, b: seq<byte>, c: seq<byte>, d: seq<byte>)
    ensures a + b + c + d == a + (b + c + d)
  {}

  lemma Regroup(stack: seq<Part>, more: seq<Part>)
    requires stack != []
    ensures stack[..|stack| - 1] + ([stack[|stack| - 1]] + more) == stack + more
  {}

  lemma PartThen(p: Part, tail: seq<byte>)
    requires Plain(p) && (tail == [] || tail[0] == SLASH)
    ensures Parts(p + tail) == [p] + Parts(tail)
  {
    var s := p + tail;
    assert s[..|p|] == p && s[|p|..] == tail && s[0] == p[0];
    PartEnds(s, |p|);
  }

  lemma SlashThen(p: Part, tail: seq<byte>)
    requires Plain(p) && (tail == [] || tail[0] == SLASH)
    ensures Parts([SLASH] + p + tail) == [p] + Parts(tail)
  {
    hide Parts;
    PartThen(p, tail);
    var s := [SLASH] + p + tail;
    assert s[1..] == p + tail;
    PartsSkip(s);
  }

  lemma PartsSkip(s: seq<byte>)
    requires s != [] && s[0] == SLASH
    ensures Parts(s) == Parts(s[1..])
  {
    hide FirstPart;
    assert SkipSlashes(s) == SkipSlashes(s[1..]);
  }

  /** Folding only ever leaves plain parts, and a path shorter than 64 bytes. */
  lemma {:induction false} FoldPlain(stack: seq<Part>, parts: seq<Part>)
    requires AllPlain(stack) && |Join(stack)| < PATH_MAX
    requires forall k :: 0 <= k < |parts| ==> parts[k] != [] && SLASH !in parts[k]
    ensures Fold(stack, parts).Some? ==>
      AllPlain(Fold(stack, parts).value) && |Join(Fold(stack, parts).value)| < PATH_MAX
    decreases |parts|
  {
    if parts != [] && Apply(stack, parts[0]).Some? {
      ShorterJoin(stack);
      FoldPlain(Apply(stack, parts[0]).value, parts[1..]);
    }
  }

  lemma {:induction false} PartsAre(s: seq<byte>)
    ensures forall k :: 0 <= k < |Parts(s)| ==> Parts(s)[k] != [] && SLASH !in Parts(s)[k]
    decreases |s|
  {
    var t := SkipSlashes(s);
    if t != [] { PartsAre(t[|FirstPart(t)|..]); }
  }

  /** Folding plain parts that fit just stacks them. */
  lemma {:induction false} FoldStacks(stack: seq<Part>, parts: seq<Part>)
    requires AllPlain(stack + parts) && |Join(stack + parts)| < PATH_MAX
    ensures Fold(stack, parts) == Some(stack + parts)
    decreases |parts|
  {
    if parts == [] {
      assert stack + parts == stack;
    } else {
      assert (stack + parts)[|stack|] == parts[0];
      assert (stack + [parts[0]]) + parts[1..] == stack + parts;
      PrefixFits(stack + [parts[0]], parts[1..]);
      JoinPush(stack, parts[0]);
      FoldStacks(stack + [parts[0]], parts[1..]);
    }
  }

  lemma {:induction false} PrefixFits(a: seq<Part>, b: seq<Part>)
    ensures |Join(a)| <= |Join(a + b)|
    decreases |b|
  {
    if b == [] {
      assert a + b == a;
    } else {
      var front := b[..|b| - 1];
      assert a + b == (a + front) + [b[|b| - 1]];
      PrefixFits(a, front);
      JoinPush(a + front, b[|b| - 1]);
    }
  }

  /** A normal path is shorter than 64 bytes, has no empty, `.` or `..` part, and is its own normal form. */
  lemma NormalForm(src: seq<byte>)
    requires Normalized(src).Some?
    ensures var p := Normalized(src).value;
      && 0 < |p| < PATH_MAX && AllPlain(Parts(p)) && p == Join(Parts(p)) && Normalized(p) == Some(p)
  {
    PartsAre(src);
    FoldPlain([], Parts(src));
    var stack := Fold([], Parts(src)).value;
    JoinEmpty(stack);
    PartsOfJoin(stack, []);
    assert Join(stack) + [] == Join(stack) && stack + Parts([]) == stack;
    assert [] + stack == stack;
    FoldStacks([], stack);
  }
}
