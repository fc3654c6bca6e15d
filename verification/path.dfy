// Path components (lib/shim/src/no_std/path.rs): a lazy parser that works from both
// ends of a path, and strip_prefix, push and parent on top of it.
//
// parse_prefix always answers None on this platform, so there are no prefixes here.

module PathComponents {
  type Bytes = seq<int>

  const SLASH := 47
  const DOT := 46

  datatype Component = RootDir | CurDir | ParentDir | Normal(name: Bytes)

  datatype Option<T> = None | Some(value: T)

  // -------------------------------------------------------- what a path stands for

  predicate IsSep(b: int) {
    b == SLASH
  }

  /** parse_single_component; [] is its None. */
  function Single(piece: Bytes): (r: seq<Component>)
    ensures |r| <= 1
  {
    if piece == [DOT] || piece == [] then []
    else if piece == [DOT, DOT] then [ParentDir]
    else [Normal(piece)]
  }

  /** Where the first slash is, |s| if there is none. */
  function FirstSep(s: Bytes): (i: nat)
    ensures i <= |s| && (i < |s| ==> IsSep(s[i])) && forall k :: 0 <= k < i ==> !IsSep(s[k])
  {
    if s == [] || IsSep(s[0]) then 0 else 1 + FirstSep(s[1..])
  }

  /** Where the last slash is, -1 if there is none. */
  function LastSep(s: Bytes): (i: int)
    ensures -1 <= i < |s| && (i >= 0 ==> IsSep(s[i])) && forall k :: i < k < |s| ==> !IsSep(s[k])
  {
    if s == [] || IsSep(s[|s| - 1]) then |s| - 1 else LastSep(s[..|s| - 1])
  }

  /** The pieces between the slashes. */
  function Split(s: Bytes): (r: seq<Bytes>)
    ensures r != []
    decreases |s|
  {
    var i := FirstSep(s);
    if i == |s| then [s] else [s[..i]] + Split(s[i + 1..])
  }

  function Parsed(pieces: seq<Bytes>): seq<Component> {
    if pieces == [] then [] else Single(pieces[0]) + Parsed(pieces[1..])
  }

  /** The components of the part of a path after its root or leading dot. */
  function Body(s: Bytes): seq<Component> {
    Parsed(Split(s))
  }

  predicate Rooted(p: Bytes) {
    p != [] && IsSep(p[0])
  }

  /** The path is "." or starts with "./". */
  predicate StartsHere(p: Bytes) {
    p != [] && p[0] == DOT && (|p| == 1 || IsSep(p[1]))
  }

  /** The components of a path. */
  function Spec(p: Bytes): seq<Component> {
    if Rooted(p) then [RootDir] + Body(p[1..])
    else if StartsHere(p) then [CurDir] + Body(p[1..])
    else Body(p)
  }

  // ------------------------------------------------------------ laws of splitting

  lemma {:induction false} ParsedConcat(a: seq<Bytes>, b: seq<Bytes>)
    ensures Parsed(a + b) == Parsed(a) + Parsed(b)
  {
    if a == [] {
      assert a + b == b;
    } else {
      ParsedConcat(a[1..], b);
      assert (a + b)[1..] == a[1..] + b && (a + b)[0] == a[0];
    }
  }

  lemma FirstSepOf(s: Bytes, i: nat)
    requires i <= |s| && (i < |s| ==> IsSep(s[i])) && forall k :: 0 <= k < i ==> !IsSep(s[k])
    ensures FirstSep(s) == i
  {
  }

  lemma SplitAt(x: Bytes, y: Bytes)
    requires forall k :: 0 <= k < |x| ==> !IsSep(x[k])
    ensures Split(x + [SLASH] + y) == [x] + Split(y)
    ensures Split(x) == [x]
  {
    var s := x + [SLASH] + y;
    FirstSepOf(s, |x|);
    FirstSepOf(x, |x|);
    assert s[..|x|] == x && s[|x| + 1..] == y;
  }

  lemma {:induction false} SplitConcat(x: Bytes, y: Bytes)
    ensures Split(x + [SLASH] + y) == Split(x) + Split(y)
    decreases |x|
  {
    hide Split;
    var i := FirstSep(x);
    if i == |x| {
      SplitAt(x, y);
    } else {
      var a, b := x[..i], x[i + 1..];
      SplitConcat(b, y);
      SplitAt(a, b);
      SplitAt(a, b + [SLASH] + y);
      assert x == a + [SLASH] + b;
      assert x + [SLASH] + y == a + [SLASH] + (b + [SLASH] + y);
    }
  }

  /** A slash separates the components on its two sides. */
  lemma BodyConcat(x: Bytes, y: Bytes)
    ensures Body(x + [SLASH] + y) == Body(x) + Body(y)
  {
    SplitConcat(x, y);
    ParsedConcat(Split(x), Split(y));
  }

  lemma BodyOfPiece(s: Bytes)
    requires forall k :: 0 <= k < |s| ==> !IsSep(s[k])
    ensures Body(s) == Single(s)
  {
    SplitAt(s, []);
    assert Parsed([s]) == Single(s) + Parsed([]);
  }

  lemma BodyCut(s: Bytes, i: nat)
    requires i < |s| && IsSep(s[i])
    ensures Body(s) == Body(s[..i]) + Body(s[i + 1..])
  {
    hide Body;
    var x, y := s[..i], s[i + 1..];
    BodyConcat(x, y);
    assert s == x + [SLASH] + y;
  }

  lemma BodyFront(s: Bytes)
    ensures FirstSep(s) < |s| ==> Body(s) == Single(s[..FirstSep(s)]) + Body(s[FirstSep(s) + 1..])
    ensures FirstSep(s) == |s| ==> Body(s) == Single(s)
  {
    hide Body, Single;
    var i := FirstSep(s);
    if i < |s| {
      BodyOfPiece(s[..i]);
      BodyCut(s, i);
    } else {
      BodyOfPiece(s);
    }
  }

  lemma BodyBack(s: Bytes)
    ensures LastSep(s) >= 0 ==> Body(s) == Body(s[..LastSep(s)]) + Single(s[LastSep(s) + 1..])
    ensures LastSep(s) < 0 ==> Body(s) == Single(s)
  {
    hide Body, Single;
    var i := LastSep(s);
    if i >= 0 {
      BodyOfPiece(s[i + 1..]);
      BodyCut(s, i);
    } else {
      BodyOfPiece(s);
    }
  }

  // -------------------------------------------------------------- the iterator

  datatype State = Prefix | StartDir | InBody | Done

  function Rank(s: State): nat {
    match s
    case Prefix => 0
    case StartDir => 1
    case InBody => 2
    case Done => 3
  }

  datatype Comps = Comps(path: Bytes, root: bool, front: State, back: State)

  predicate HereIncluded(c: Comps) {
    !c.root && StartsHere(c.path)
  }

  /** len_before_body */
  function Before(c: Comps): nat {
    if Rank(c.front) <= 1 && (c.root || HereIncluded(c)) then 1 else 0
  }

  predicate Finished(c: Comps) {
    c.front == Done || c.back == Done || Rank(c.front) > Rank(c.back)
  }

  predicate Valid(c: Comps) {
    && (c.root && Rank(c.front) <= 1 && (c.back == StartDir || c.back == InBody) ==> Rooted(c.path))
    && (!c.root && Rank(c.front) <= 1 ==> !Rooted(c.path))
    && (c.front == Done ==> c.path == [])
    && (c.back == StartDir ==> |c.path| == Before(c))
    && (c.back == Prefix || c.back == Done ==> c.path == [] && Rank(c.front) <= 1)
  }

  function Start(p: Bytes): Comps {
    Comps(p, Rooted(p), Prefix, InBody)
  }

  function Head(c: Comps): seq<Component> {
    if Rank(c.front) >= 2 || Rank(c.back) < 1 then []
    else if c.root then [RootDir]
    else if HereIncluded(c) then [CurDir]
    else []
  }

  /** The components yet to come, from either end. */
  function Remaining(c: Comps): seq<Component>
    requires Valid(c)
  {
    if Finished(c) then []
    else Head(c) + if c.back == InBody && Before(c) <= |c.path| then Body(c.path[Before(c)..]) else []
  }

  lemma BodyEmpty()
    ensures Body([]) == []
  {
    BodyOfPiece([]);
  }

  /** parse_next_component: how many bytes to drop, and the component if there is one. */
  function NextPiece(s: Bytes): (r: (nat, seq<Component>))
    ensures r.0 <= |s| && (s != [] ==> r.0 > 0) && |r.1| <= 1
  {
    var i := FirstSep(s);
    (if i < |s| then i + 1 else i, Single(s[..i]))
  }

  /** parse_next_component_back, for the bytes after the root or leading dot. */
  function LastPiece(s: Bytes): (r: (nat, seq<Component>)) {
    (LastSize(s), Single(s[LastSep(s) + 1..]))
  }

  function LastSize(s: Bytes): (n: nat)
    ensures |s| - n == if LastSep(s) >= 0 then LastSep(s) else 0
  {
    |s| - (LastSep(s) + 1) + if LastSep(s) >= 0 then 1 else 0
  }

  lemma NextPieceOf(s: Bytes)
    ensures Body(s) == NextPiece(s).1 + Body(s[NextPiece(s).0..])
  {
    hide Body, Single;
    var i := FirstSep(s);
    BodyFront(s);
    BodyEmpty();
    if i == |s| {
      assert s[..i] == s && s[i..] == [];
    }
  }

  lemma LastPieceOf(s: Bytes)
    ensures Body(s) == Body(s[..|s| - LastPiece(s).0]) + LastPiece(s).1
  {
    hide Body, Single, LastSep;
    var i := LastSep(s);
    BodyBack(s);
    if i < 0 {
      BodyEmpty();
      assert s[i + 1..] == s;
      assert s[..0] == [];
    }
  }

  function AtFront(c: Comps, path: Bytes, front: State): Comps {
    c.(path := path, front := front)
  }

  function AtBack(c: Comps, path: Bytes, back: State): Comps {
    c.(path := path, back := back)
  }

  /** What next() does at the start of a path. */
  lemma FrontStart(c: Comps)
    requires Valid(c) && !Finished(c) && c.front == StartDir
    ensures c.root || HereIncluded(c) ==> c.path != []
    ensures var t := AtFront(c, if c.root || HereIncluded(c) then c.path[1..] else c.path, InBody);
            Valid(t) && Remaining(c) == Head(c) + Remaining(t) && (Head(c) == [] ==> Remaining(c) == Remaining(t))
  {
    hide Body;
    BodyEmpty();
    if c.root || HereIncluded(c) {
      assert c.path[1..][0..] == c.path[1..];
    } else {
      assert c.path[0..] == c.path;
    }
  }

  lemma FrontPiece(c: Comps)
    requires Valid(c) && !Finished(c) && c.front == InBody
    ensures var t := AtFront(c, c.path[NextPiece(c.path).0..], InBody);
            Valid(t) && Remaining(c) == NextPiece(c.path).1 + Remaining(t)
  {
    hide Body, NextPiece;
    NextPieceOf(c.path);
    var t := AtFront(c, c.path[NextPiece(c.path).0..], InBody);
    assert c.path[0..] == c.path && t.path[0..] == t.path;
  }

  lemma FrontEnd(c: Comps)
    requires Valid(c) && !Finished(c) && c.front == InBody && c.path == []
    ensures Valid(AtFront(c, [], Done)) && Remaining(c) == [] && Remaining(AtFront(c, [], Done)) == []
  {
    hide Body;
    BodyEmpty();
  }

  lemma PieceSize(s: Bytes)
    ensures 0 <= LastPiece(s).0 <= |s|
  {
    hide Single, LastSep;
  }

  /** Dropping whole pieces from the right leaves the start of the path as it was. */
  lemma BackKeepsStart(c: Comps)
    requires Valid(c) && c.back == InBody && Before(c) <= |c.path|
    ensures var t := AtBack(c, c.path[..|c.path| - LastPiece(c.path[Before(c)..]).0], InBody);
            Valid(t) && Before(t) == Before(c) && Head(t) == Head(c) && Before(t) <= |t.path| &&
            Finished(t) == Finished(c)
  {
    hide LastPiece, Single, LastSep, StartsHere, Split;
    PieceSize(c.path[Before(c)..]);
    var path := c.path[..|c.path| - LastPiece(c.path[Before(c)..]).0];
    if !c.root && Rank(c.front) <= 1 {
      HereKept(c, path);
    } else if Rank(c.front) <= 1 {
      assert path[0] == c.path[0];
    }
    KeptShape(c, AtBack(c, path, InBody));
  }

  lemma KeptShape(c: Comps, t: Comps)
    requires Valid(c) && c.back == InBody && t == AtBack(c, t.path, InBody) && Before(c) <= |t.path| <= |c.path|
    requires !c.root && Rank(c.front) <= 1 ==> StartsHere(t.path) == StartsHere(c.path)
    requires Rank(c.front) <= 1 && t.path != [] ==> t.path[0] == c.path[0]
    ensures Valid(t) && Before(t) == Before(c) && Head(t) == Head(c) && Finished(t) == Finished(c)
  {
    hide StartsHere;
  }

  lemma HereKept(c: Comps, path: Bytes)
    requires !c.root && Rank(c.front) <= 1 && Before(c) <= |c.path|
    requires path == c.path[..|c.path| - LastPiece(c.path[Before(c)..]).0]
    ensures StartsHere(path) == StartsHere(c.path) && (path != [] ==> path[0] == c.path[0])
  {
    hide Single, LastSep;
    var s := c.path[Before(c)..];
    if StartsHere(c.path) {
      assert |path| >= 1;
    } else {
      assert s == c.path;
      if LastSep(s) == 1 {
        assert IsSep(c.path[1]);
      }
    }
  }

  lemma BackPiece(c: Comps)
    requires Valid(c) && !Finished(c) && c.back == InBody && Before(c) <= |c.path|
    ensures var t := AtBack(c, c.path[..|c.path| - LastPiece(c.path[Before(c)..]).0], InBody);
            Valid(t) && !Finished(t) && Before(t) == Before(c) &&
            Remaining(c) == Remaining(t) + LastPiece(c.path[Before(c)..]).1
  {
    hide Body, LastPiece, Head, Valid, Before, Finished;
    BackKeepsStart(c);
    var s := c.path[Before(c)..];
    PieceSize(s);
    LastPieceOf(s);
    var t := AtBack(c, c.path[..|c.path| - LastPiece(s).0], InBody);
    assert t.path[Before(c)..] == s[..|s| - LastPiece(s).0];
  }

  lemma BackBodyDone(c: Comps)
    requires Valid(c) && !Finished(c) && c.back == InBody && |c.path| <= Before(c)
    ensures Valid(AtBack(c, c.path, StartDir)) && Remaining(AtBack(c, c.path, StartDir)) == Remaining(c)
  {
    hide Body;
    BodyEmpty();
    assert Before(c) <= |c.path|;
    assert c.path[Before(c)..] == [];
  }

  lemma BackStart(c: Comps)
    requires Valid(c) && !Finished(c) && c.back == StartDir
    ensures |c.path| == if c.root || HereIncluded(c) then 1 else 0
    ensures Valid(AtBack(c, [], Prefix)) && Remaining(AtBack(c, [], Prefix)) == []
    ensures Remaining(c) == if c.root then [RootDir] else if HereIncluded(c) then [CurDir] else []
  {
  }

  /** Neither rooted nor with a leading dot: all body. */
  predicate Plain(p: Bytes) {
    !Rooted(p) && !StartsHere(p)
  }

  lemma PieceIsPlain(p: Bytes)
    requires p == [] || NextPiece(p).1 != []
    ensures Plain(p)
  {
    if p != [] {
      var i := FirstSep(p);
      assert i > 0;
      if i == 1 {
        assert p[..1] == [p[0]];
      }
    }
  }

  /** A path read again gives what the iterator still has to give. */
  lemma Reparse(c: Comps)
    requires Valid(c) && (c.front == InBody ==> Plain(c.path))
    ensures Spec(c.path) == Remaining(c)
  {
    hide Body;
    BodyEmpty();
    assert c.path[0..] == c.path;
    if !Finished(c) && c.back == StartDir && Before(c) == 1 {
      assert c.path[1..] == [];
    }
  }

  lemma PlainKept(p: Bytes, n: nat)
    requires Plain(p) && n <= |p| && (n == |p| || n == 0 || IsSep(p[n]))
    ensures Plain(p[..n])
  {
  }

  function Reverse(s: seq<Component>): seq<Component> {
    if s == [] then [] else Reverse(s[1..]) + [s[0]]
  }

  /** The iterator that Path::components makes. */
  class Components {
    var path: Bytes
    var root: bool
    var front: State
    var back: State

    ghost function V(): Comps
      reads this
    {
      Comps(path, root, front, back)
    }

    constructor (p: Bytes)
      ensures V() == Start(p) && Valid(V()) && Remaining(V()) == Spec(p)
    {
      path, root, front, back := p, Rooted(p), Prefix, InBody;
      new;
      assert p[0..] == p;
      BodyEmpty();
    }

    /** clone */
    constructor Copy(c: Components)
      ensures V() == c.V()
    {
      path, root, front, back := c.path, c.root, c.front, c.back;
    }

    predicate IsFinished()
      reads this
    {
      front == Done || back == Done || Rank(front) > Rank(back)
    }

    predicate IncludeCurDir()
      reads this
    {
      !root && StartsHere(path)
    }

    function LenBeforeBody(): nat
      reads this
    {
      (if Rank(front) <= 1 && root then 1 else 0) + (if Rank(front) <= 1 && IncludeCurDir() then 1 else 0)
    }

    /** next: the first of the components left. */
    method Next() returns (r: Option<Component>)
      requires Valid(V())
      modifies this
      ensures Valid(V())
      ensures r == None ==> old(Remaining(V())) == [] && Remaining(V()) == []
      ensures r.Some? ==> old(Remaining(V())) == [r.value] + Remaining(V()) && front == InBody
    {
      hide Valid, Remaining, NextPiece, Spec, Plain;
      while !IsFinished()
        invariant Valid(V()) && Remaining(V()) == old(Remaining(V()))
        decreases 3 - Rank(front), |path|
      {
        match front {
          case Prefix =>
            PrefixSkipped(V());
            front := StartDir;
          case StartDir =>
            FrontStart(V());
            front := InBody;
            if root {
              path := path[1..];
              return Some(RootDir);
            } else if IncludeCurDir() {
              path := path[1..];
              return Some(CurDir);
            }
          case InBody =>
            if path != [] {
              FrontPiece(V());
              var (size, comp) := NextPiece(path);
              path := path[size..];
              if comp != [] {
                return Some(comp[0]);
              }
              assert Remaining(V()) == comp + Remaining(V());
            } else {
              FrontEnd(V());
              front := Done;
            }
        }
      }
      FinishedIsEmpty(V());
      r := None;
    }

    /** next_back: the last of the components left. */
    method NextBack() returns (r: Option<Component>)
      requires Valid(V())
      modifies this
      ensures Valid(V())
      ensures r == None ==> old(Remaining(V())) == [] && Remaining(V()) == []
      ensures r.Some? ==> old(Remaining(V())) == Remaining(V()) + [r.value]
    {
      hide Valid, Remaining, LastSep, Single, Spec, Body, Head;
      while !IsFinished()
        invariant Valid(V()) && Remaining(V()) == old(Remaining(V()))
        decreases Rank(back), |path|
      {
        match back {
          case InBody =>
            if |path| > LenBeforeBody() {
              BackPiece(V());
              var start := LenBeforeBody();
              var (size, comp) := LastPiece(path[start..]);
              path := path[..|path| - size];
              if comp != [] {
                assert comp == [comp[0]];
                return Some(comp[0]);
              }
              assert Remaining(V()) == Remaining(V()) + comp;
            } else {
              BackBodyDone(V());
              back := StartDir;
            }
          case StartDir =>
            BackStart(V());
            back := Prefix;
            if root {
              path := path[..|path| - 1];
              return Some(RootDir);
            } else if IncludeCurDir() {
              path := path[..|path| - 1];
              return Some(CurDir);
            }
          case Prefix =>
            BackPrefix(V());
            back := Done;
            return None;
        }
      }
      FinishedIsEmpty(V());
      r := None;
    }

    method TrimLeft()
      requires Valid(V()) && front == InBody
      modifies this`path
      ensures Valid(V()) && Remaining(V()) == old(Remaining(V())) && Plain(path)
    {
      hide Valid, Remaining, NextPiece, Spec;
      while path != []
        invariant Valid(V()) && Remaining(V()) == old(Remaining(V()))
        decreases |path|
      {
        var (size, comp) := NextPiece(path);
        if comp != [] {
          PieceIsPlain(path);
          return;
        } else {
          TrimmedFront(V());
          path := path[size..];
        }
      }
    }

    method TrimRight()
      requires Valid(V()) && back == InBody
      modifies this`path
      ensures Valid(V()) && Remaining(V()) == old(Remaining(V()))
      ensures old(front == InBody && Plain(path)) ==> Plain(path)
      ensures |path| > LenBeforeBody() ==> LastPiece(path[LenBeforeBody()..]).1 != []
      ensures path <= old(path)
    {
      hide Valid, Remaining, LastSep, Single, Spec;
      while |path| > LenBeforeBody()
        invariant Valid(V()) && Remaining(V()) == old(Remaining(V()))
        invariant old(front == InBody && Plain(path)) ==> Plain(path)
        invariant path <= old(path)
        decreases |path|
      {
        var start := LenBeforeBody();
        var (size, comp) := LastPiece(path[start..]);
        if comp != [] {
          return;
        } else {
          TrimmedBack(V());
          path := path[..|path| - size];
        }
      }
    }

    /** as_path: a path with just the components that are left. */
    method AsPath() returns (p: Bytes)
      requires Valid(V())
      ensures Spec(p) == Remaining(V())
      ensures front == InBody ==> Plain(p)
    {
      hide Valid, Remaining, Spec, Plain;
      var comps := new Components.Copy(this);
      if comps.front == InBody {
        comps.TrimLeft();
      }
      if comps.back == InBody {
        comps.TrimRight();
      }
      Reparse(comps.V());
      p := comps.path;
    }
  }

  lemma TrimmedFront(c: Comps)
    requires Valid(c) && c.front == InBody && c.path != [] && NextPiece(c.path).1 == []
    ensures var t := AtFront(c, c.path[NextPiece(c.path).0..], InBody);
            Valid(t) && Remaining(t) == Remaining(c)
  {
    if Finished(c) {
      hide Body;
    } else {
      FrontPiece(c);
    }
  }

  lemma TrimmedBack(c: Comps)
    requires Valid(c) && c.back == InBody && |c.path| > Before(c) && LastPiece(c.path[Before(c)..]).1 == []
    ensures var t := AtBack(c, c.path[..|c.path| - LastPiece(c.path[Before(c)..]).0], InBody);
            Valid(t) && Remaining(t) == Remaining(c) && (c.front == InBody && Plain(c.path) ==> Plain(t.path))
  {
    hide LastSep, Single;
    BackKeepsStart(c);
    if !Finished(c) {
      BackPiece(c);
    }
    if c.front == InBody && Plain(c.path) {
      assert c.path[0..] == c.path;
      PlainKept(c.path, |c.path| - LastSize(c.path));
    }
  }

  lemma PrefixSkipped(c: Comps)
    requires Valid(c) && !Finished(c) && c.front == Prefix
    ensures Valid(AtFront(c, c.path, StartDir)) && Remaining(AtFront(c, c.path, StartDir)) == Remaining(c)
  {
  }

  lemma FinishedIsEmpty(c: Comps)
    requires Valid(c) && Finished(c)
    ensures Remaining(c) == []
  {
  }

  lemma BackPrefix(c: Comps)
    requires Valid(c) && !Finished(c) && c.back == Prefix
    ensures Remaining(c) == [] && Valid(AtBack(c, c.path, Done)) && Remaining(AtBack(c, c.path, Done)) == []
  {
  }

  // ------------------------------------------------------------ mixes of both ends

  lemma {:induction false} ReverseConcat(a: seq<Component>, b: seq<Component>)
    ensures Reverse(a + b) == Reverse(b) + Reverse(a)
  {
    if a == [] {
      assert a + b == b;
    } else {
      ReverseConcat(a[1..], b);
      assert (a + b)[1..] == a[1..] + b;
    }
  }

  // What calls of next (true) and next_back (false) come to on a sequence.

  /** What is left after these calls. */
  function Left(s: seq<Component>, fronts: seq<bool>): seq<Component>
    decreases |fronts|
  {
    if fronts == [] then s
    else
      var n := |fronts| - 1;
      var rest := Left(s, fronts[..n]);
      if rest == [] then [] else if fronts[n] then rest[1..] else rest[..|rest| - 1]
  }

  /** The answers. */
  function Answers(s: seq<Component>, fronts: seq<bool>): (r: seq<Option<Component>>)
    ensures |r| == |fronts|
    decreases |fronts|
  {
    if fronts == [] then []
    else
      var n := |fronts| - 1;
      var rest := Left(s, fronts[..n]);
      Answers(s, fronts[..n]) + [if rest == [] then None else Some(if fronts[n] then rest[0] else rest[|rest| - 1])]
  }

  /** The components among the answers of one end. */
  function From(answers: seq<Option<Component>>, fronts: seq<bool>, end: bool): seq<Component>
    requires |answers| == |fronts|
    decreases |fronts|
  {
    if fronts == [] then []
    else
      var n := |fronts| - 1;
      From(answers[..n], fronts[..n], end) + if fronts[n] == end && answers[n].Some? then [answers[n].value] else []
  }

  lemma {:induction false} LeftLength(s: seq<Component>, fronts: seq<bool>)
    ensures |Left(s, fronts)| == if |fronts| <= |s| then |s| - |fronts| else 0
    decreases |fronts|
  {
    if fronts != [] {
      LeftLength(s, fronts[..|fronts| - 1]);
    }
  }

  /** What one more call adds at one end. */
  lemma LastFrom(s: seq<Component>, fronts: seq<bool>, end: bool)
    requires fronts != []
    ensures var n := |fronts| - 1;
            var rest, before := Left(s, fronts[..n]), From(Answers(s, fronts[..n]), fronts[..n], end);
            From(Answers(s, fronts), fronts, end) ==
              if rest == [] || fronts[n] != end then before
              else if end then before + [rest[0]] else before + [rest[|rest| - 1]]
  {
    var n := |fronts| - 1;
    assert Answers(s, fronts)[..n] == Answers(s, fronts[..n]);
    var before := From(Answers(s, fronts[..n]), fronts[..n], end);
    assert before + [] == before;
  }

  /** The components, as they come from the two ends. */
  ghost predicate Deque(s: seq<Component>, front: seq<Component>, rest: seq<Component>, back: seq<Component>) {
    front + rest + Reverse(back) == s
  }

  lemma FrontTaken(s: seq<Component>, front: seq<Component>, rest: seq<Component>, back: seq<Component>)
    requires Deque(s, front, rest, back) && rest != []
    ensures Deque(s, front + [rest[0]], rest[1..], back)
  {
    assert front + rest + Reverse(back) == (front + [rest[0]]) + rest[1..] + Reverse(back);
  }

  lemma BackTaken(s: seq<Component>, front: seq<Component>, rest: seq<Component>, back: seq<Component>)
    requires Deque(s, front, rest, back) && rest != []
    ensures Deque(s, front, rest[..|rest| - 1], back + [rest[|rest| - 1]])
  {
    var last := [rest[|rest| - 1]];
    assert Reverse(last) == last;
    ReverseConcat(back, last);
    assert front + rest + Reverse(back) == front + rest[..|rest| - 1] + (last + Reverse(back));
  }

  /** Whatever the mix: what came from the front, what is left, and what came from the
      back reversed make up the sequence, so each component comes out once. */
  lemma {:induction false} EachOnce(s: seq<Component>, fronts: seq<bool>)
    ensures var answers := Answers(s, fronts);
            From(answers, fronts, true) + Left(s, fronts) + Reverse(From(answers, fronts, false)) == s
    decreases |fronts|
  {
    if fronts != [] {
      var n := |fronts| - 1;
      EachOnce(s, fronts[..n]);
      LastFrom(s, fronts, true);
      LastFrom(s, fronts, false);
      var rest, answers := Left(s, fronts[..n]), Answers(s, fronts[..n]);
      var front, back := From(answers, fronts[..n], true), From(answers, fronts[..n], false);
      hide From, Answers, Reverse;
      if rest != [] && fronts[n] {
        FrontTaken(s, front, rest, back);
      } else if rest != [] {
        BackTaken(s, front, rest, back);
      }
    }
  }

  lemma {:induction false} OneEnd(answers: seq<Option<Component>>, fronts: seq<bool>, end: bool)
    requires |answers| == |fronts| && forall i :: 0 <= i < |fronts| ==> fronts[i] == end
    ensures From(answers, fronts, !end) == []
    decreases |fronts|
  {
    if fronts != [] {
      OneEnd(answers[..|fronts| - 1], fronts[..|fronts| - 1], end);
    }
  }

  /** Draining from the front gives the reverse of draining from the back. */
  lemma ForwardIsBackwardReversed(s: seq<Component>, n: nat)
    requires n >= |s|
    ensures var f, b := seq(n, _ => true), seq(n, _ => false);
            From(Answers(s, f), f, true) == s && From(Answers(s, f), f, true) == Reverse(From(Answers(s, b), b, false))
  {
    hide Answers, From, Left;
    var f, b := seq(n, _ => true), seq(n, _ => false);
    EachOnce(s, f);
    EachOnce(s, b);
    LeftLength(s, f);
    LeftLength(s, b);
    OneEnd(Answers(s, f), f, true);
    OneEnd(Answers(s, b), b, false);
  }

  /** Any calls of next (true) and next_back (false) on a path: each answers as if the
      components had been split up beforehand. */
  method Drain(p: Bytes, fronts: seq<bool>) returns (answers: seq<Option<Component>>, c: Components)
    ensures fresh(c) && Valid(c.V())
    ensures answers == Answers(Spec(p), fronts) && Remaining(c.V()) == Left(Spec(p), fronts)
  {
    hide Valid, Remaining, Spec;
    c := new Components(p);
    answers := [];
    for i := 0 to |fronts|
      invariant fresh(c) && Valid(c.V())
      invariant answers == Answers(Spec(p), fronts[..i]) && Remaining(c.V()) == Left(Spec(p), fronts[..i])
    {
      assert fronts[..i + 1][..i] == fronts[..i] && fronts[..i + 1][i] == fronts[i];
      ghost var rest := Remaining(c.V());
      var r;
      if fronts[i] {
        r := c.Next();
        assert r.Some? ==> rest[1..] == Remaining(c.V());
      } else {
        r := c.NextBack();
        assert r.Some? ==> rest[..|rest| - 1] == Remaining(c.V());
      }
      answers := answers + [r];
    }
    assert fronts[..|fronts|] == fronts;
  }

  // -------------------------------------------------------- strip_prefix and push

  /** iter_after: iter moved past the components of prefix, if they come first in it. */
  method IterAfter(iter: Components, prefix: Components) returns (r: Option<Components>)
    requires Valid(iter.V()) && Valid(prefix.V()) && iter != prefix
    modifies prefix
    ensures r.Some? <==> old(Remaining(prefix.V())) <= old(Remaining(iter.V()))
    ensures r.Some? ==> Valid(r.value.V())
    ensures r.Some? ==> old(Remaining(iter.V())) == old(Remaining(prefix.V())) + Remaining(r.value.V())
    ensures r.Some? && old(Remaining(prefix.V())) != [] ==> r.value.front == InBody
  {
    hide Valid, Remaining, Spec;
    var cur := iter;
    ghost var all, pre := Remaining(iter.V()), Remaining(prefix.V());
    ghost var seen: seq<Component> := [];
    while true
      invariant fresh({cur} - {iter}) && cur != prefix && iter.V() == old(iter.V())
      invariant Valid(cur.V()) && Valid(prefix.V())
      invariant all == seen + Remaining(cur.V()) && pre == seen + Remaining(prefix.V())
      invariant seen != [] ==> cur.front == InBody
      decreases |Remaining(prefix.V())|
    {
      ghost var left := Remaining(cur.V());
      ghost var want := Remaining(prefix.V());
      var next := new Components.Copy(cur);
      var x := next.Next();
      var y := prefix.Next();
      if x.Some? && y.Some? {
        if x != y {
          assert all[|seen|] == x.value && pre[|seen|] == y.value;
          return None;
        }
      } else if y.None? {
        assert pre == seen && all[..|seen|] == seen;
        return Some(cur);
      } else {
        assert |pre| > |all|;
        return None;
      }
      seen := seen + [x.value];
      cur := next;
    }
  }

  /** strip_prefix: exactly for a base whose components come first in the path. */
  method StripPrefix(p: Bytes, base: Bytes) returns (r: Option<Bytes>)
    ensures r.Some? <==> Spec(base) <= Spec(p)
    ensures r.Some? ==> Spec(p) == Spec(base) + Spec(r.value)
    ensures r.Some? && base != [] ==> Plain(r.value)
  {
    hide Valid, Remaining, Spec, Plain;
    var iter := new Components(p);
    var prefix := new Components(base);
    NonemptyHasParts(base);
    var left := IterAfter(iter, prefix);
    if left.None? {
      return None;
    }
    var q := left.value.AsPath();
    r := Some(q);
  }

  lemma NonemptyHasParts(p: Bytes)
    ensures Spec(p) == [] ==> p == []
  {
    hide Body;
    if p != [] && Plain(p) {
      BodyFront(p);
      if FirstSep(p) == 1 {
        assert p[..1] == [p[0]];
      }
    }
  }

  /** push, on the bytes of a PathBuf. */
  method Push(buf: Bytes, path: Bytes) returns (r: Bytes)
    ensures Spec(r) == if Rooted(path) || buf == [] then Spec(path) else Spec(buf) + Body(path)
  {
    hide Body;
    var needSep := buf != [] && !IsSep(buf[|buf| - 1]);
    r := buf;
    if Rooted(path) {
      r := [];
    } else if needSep {
      r := r + [SLASH];
    }
    r := r + path;
    if !Rooted(path) && buf != [] {
      var cut := if needSep then buf else buf[..|buf| - 1];
      assert r == cut + [SLASH] + path;
      Joined(buf, cut, path);
    } else {
      assert r == path;
    }
  }

  lemma Joined(buf: Bytes, cut: Bytes, path: Bytes)
    requires buf != [] && (buf == cut || buf == cut + [SLASH])
    ensures Spec(cut + [SLASH] + path) == Spec(buf) + Body(path)
  {
    hide Body;
    var r := cut + [SLASH] + path;
    BodyEmpty();
    if Rooted(r) || StartsHere(r) {
      if |cut| >= 1 {
        assert r[1..] == cut[1..] + [SLASH] + path;
        BodyConcat(cut[1..], path);
        if buf != cut {
          assert buf[1..] == cut[1..] + [SLASH] + [];
          BodyConcat(cut[1..], []);
        }
      } else {
        assert r[1..] == path && buf[1..] == [];
      }
    } else {
      BodyConcat(cut, path);
      if buf != cut {
        assert buf == cut + [SLASH] + [];
        BodyConcat(cut, []);
      }
    }
  }

  /** What strip_prefix leaves, pushed onto the base, has the path's components again. */
  method StripThenPush(p: Bytes, base: Bytes) returns (ok: bool, r: Bytes)
    ensures ok <==> Spec(base) <= Spec(p)
    ensures ok ==> Spec(r) == Spec(p)
  {
    hide Body;
    var rest := StripPrefix(p, base);
    ok, r := rest.Some?, [];
    if ok {
      BodyEmpty();
      r := Push(base, rest.value);
    }
  }

  /** parent: all components but the last, if that is not the root. */
  method Parent(p: Bytes) returns (r: Option<Bytes>)
    ensures r == None <==> Spec(p) == [] || Spec(p)[|Spec(p)| - 1] == RootDir
    ensures r.Some? ==> Spec(r.value) == Spec(p)[..|Spec(p)| - 1]
  {
    hide Valid, Remaining, Spec;
    var comps := new Components(p);
    var comp := comps.NextBack();
    if comp.Some? && comp.value != RootDir {
      var q := comps.AsPath();
      return Some(q);
    }
    r := None;
  }
}
