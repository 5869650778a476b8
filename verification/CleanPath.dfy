/** gin's `cleanPath`: the canonical form of a URL path, built in a buffer that is only allocated once
    the result differs from the original.

    The reference splits the path at its slashes and keeps a stack of elements. A path is a sequence of
    bytes, written as characters. */
module CleanPath {

  // ---------------------------------------------------------------- the reference

  /** The pieces between the slashes; there is always at least one. */
  function Split(p: string): (segs: seq<string>)
    ensures segs != []
  {
    if p == "" then [""]
    else if p[0] == '/' then [""] + Split(p[1..])
    else
      var rest := Split(p[1..]);
      [[p[0]] + rest[0]] + rest[1..]
  }

  /** An empty or single-dot piece says nothing, a double dot takes back the piece before it. */
  function Push(stack: seq<string>, seg: string): seq<string> {
    if seg == "" || seg == "." then stack
    else if seg == ".." then (if stack == [] then [] else stack[..|stack| - 1])
    else stack + [seg]
  }

  function PushAll(stack: seq<string>, segs: seq<string>): seq<string>
    decreases segs
  {
    if segs == [] then stack else PushAll(Push(stack, segs[0]), segs[1..])
  }

  function Join(stack: seq<string>): string {
    if stack == [] then ""
    else if |stack| == 1 then stack[0]
    else Join(stack[..|stack| - 1]) + "/" + stack[|stack| - 1]
  }

  function Last(segs: seq<string>): string
    requires segs != []
  {
    segs[|segs| - 1]
  }

  /** A slash before the stack, and one after it if the path ends in a slash or a single dot. */
  function Render(stack: seq<string>, slash: bool): string {
    "/" + Join(stack) + if slash && stack != [] then "/" else ""
  }

  function Clean(p: string): string {
    var segs := Split(p);
    Render(PushAll([], segs), Last(segs) == "" || Last(segs) == ".")
  }

  // ---------------------------------------------------------------- splitting and joining

  predicate Element(e: string) {
    e != "" && e != "." && e != ".." && '/' !in e
  }

  predicate Elements(stack: seq<string>) {
    forall k :: 0 <= k < |stack| ==> Element(stack[k])
  }

  lemma {:induction false} SplitElement(e: string, rest: string)
    requires '/' !in e && (rest == "" || rest[0] == '/')
    ensures Split(e + rest) == [e] + Split(rest)[1..]
  {
    if e == "" {
      assert e + rest == rest;
      assert Split(rest)[0] == "";
      assert Split(rest) == [""] + Split(rest)[1..];
    } else {
      SplitElement(e[1..], rest);
      assert (e + rest)[1..] == e[1..] + rest;
      assert [e[0]] + e[1..] == e;
    }
  }

  lemma {:induction false} SplitSlash(rest: string)
    ensures Split("/" + rest) == [""] + Split(rest)
  {
    assert ("/" + rest)[1..] == rest;
  }

  lemma {:induction false} SplitPieces(p: string)
    ensures forall k :: 0 <= k < |Split(p)| ==> '/' !in Split(p)[k]
  {
    if p != "" {
      SplitPieces(p[1..]);
    }
  }

  lemma {:induction false} PushAllElements(stack: seq<string>, segs: seq<string>)
    requires Elements(stack) && forall k :: 0 <= k < |segs| ==> '/' !in segs[k]
    ensures Elements(PushAll(stack, segs))
    decreases segs
  {
    if segs != [] {
      PushAllElements(Push(stack, segs[0]), segs[1..]);
    }
  }

  lemma {:induction false} JoinSnoc(stack: seq<string>, e: string)
    ensures Join(stack + [e]) == Join(stack) + (if stack == [] then "" else "/") + e
  {
    assert (stack + [e])[..|stack|] == stack;
  }

  lemma {:induction false} JoinCons(e: string, stack: seq<string>)
    ensures Join([e] + stack) == e + (if stack == [] then "" else "/" + Join(stack))
  {
    if |stack| <= 1 {
      assert |stack| == 1 ==> ([e] + stack)[..1] == [e];
    } else {
      var init, last := stack[..|stack| - 1], stack[|stack| - 1];
      JoinCons(e, init);
      assert ([e] + stack)[..|stack|] == [e] + init;
    }
  }

  lemma {:induction false} SplitJoin(stack: seq<string>, tail: string)
    requires Elements(stack) && stack != [] && (tail == "" || tail == "/")
    ensures Split(Join(stack) + tail) == stack + (if tail == "" then [] else [""])
  {
    var e, more := stack[0], stack[1..];
    assert stack == [e] + more;
    JoinCons(e, more);
    if more == [] {
      SplitElement(e, tail);
      assert tail == "/" ==> Split(tail) == [""] + Split("");
    } else {
      var rest := "/" + (Join(more) + tail);
      assert Join(stack) + tail == e + rest;
      SplitElement(e, rest);
      SplitSlash(Join(more) + tail);
      SplitJoin(more, tail);
    }
  }

  lemma {:induction false} PushAllSplit(stack: seq<string>, s: seq<string>, t: seq<string>)
    ensures PushAll(stack, s + t) == PushAll(PushAll(stack, s), t)
    decreases s
  {
    if s == [] {
      assert s + t == t;
    } else {
      assert (s + t)[1..] == s[1..] + t;
      PushAllSplit(Push(stack, s[0]), s[1..], t);
    }
  }

  lemma {:induction false} PushElements(stack: seq<string>, more: seq<string>)
    requires Elements(more)
    ensures PushAll(stack, more) == stack + more
    decreases more
  {
    if more == [] {
      assert stack + more == stack;
    } else {
      PushElements(stack + [more[0]], more[1..]);
      assert stack + [more[0]] + more[1..] == stack + more;
    }
  }

  /** Rendering a stack of elements and splitting it again gives the stack back. */
  lemma {:induction false} RenderSplit(stack: seq<string>, slash: bool)
    requires Elements(stack) && stack != []
    ensures Split(Render(stack, slash)) == [""] + stack + (if slash then [""] else [])
  {
    hide Split, Join;
    var tail := if slash then "/" else "";
    assert Render(stack, slash) == "/" + (Join(stack) + tail);
    SplitSlash(Join(stack) + tail);
    SplitJoin(stack, tail);
  }

  lemma {:induction false} RestackSame(stack: seq<string>, slash: bool)
    requires Elements(stack)
    ensures PushAll([], [""] + stack + (if slash then [""] else [])) == stack
  {
    var tail := if slash then [""] else [];
    PushAllSplit([], [""] + stack, tail);
    assert ([""] + stack)[1..] == stack;
    PushElements([], stack);
    assert PushAll(stack, [""]) == PushAll(stack, []) == stack;
  }

  /** Cleaning a clean path changes nothing. */
  lemma {:induction false} Idempotent(p: string)
    ensures Clean(Clean(p)) == Clean(p)
  {
    var segs := Split(p);
    var stack, slash := PushAll([], segs), Last(segs) == "" || Last(segs) == ".";
    SplitPieces(p);
    PushAllElements([], segs);
    if stack == [] {
      RootClean();
    } else {
      RenderSplit(stack, slash);
      RestackSame(stack, slash);
      hide Split, PushAll, Join;
      assert !slash ==> Last([""] + stack + []) == stack[|stack| - 1];
    }
  }

  lemma {:induction false} RootClean()
    ensures Clean("/") == "/"
  {
    SplitSlash("");
    assert "/" + "" == "/";
    assert PushAll([], ["", ""]) == PushAll([], [""]) == [];
  }

  // ---------------------------------------------------------------- the buffer

  /** The result so far: the buffer once there is one, the original before that. */
  ghost function Shown(buf: array<char>, p: string, w: nat): string
    requires w <= if buf.Length == 0 then |p| else buf.Length
    reads buf
  {
    if buf.Length == 0 then p[..w] else buf[..w]
  }

  /** `bufApp`: writes one byte at `w`, allocating the buffer if the original has another one there. */
  method BufApp(buf: array<char>, s: string, w: nat, c: char) returns (b: array<char>)
    requires w < if buf.Length == 0 then |s| else buf.Length
    modifies buf
    ensures b == buf || (fresh(b) && buf.Length == 0 && b.Length == |s|)
    ensures Shown(b, s, w + 1) == old(Shown(buf, s, w)) + [c]
  {
    b := buf;
    if b.Length == 0 {
      if s[w] == c {
        return;
      }
      b := new char[|s|];
      for i := 0 to w
        invariant b[..i] == s[..i]
      {
        b[i] := s[i];
      }
    }
    b[w] := c;
    assert b[..w + 1] == b[..w] + [c];
  }

  lemma {:induction false} JoinNothing()
    ensures Join([]) == ""
  {
  }

  lemma {:induction false} JoinSomething(stack: seq<string>)
    requires stack != [] && Elements(stack)
    ensures Join(stack) != ""
  {
    assert Element(stack[|stack| - 1]);
  }

  lemma {:induction false} AfterRoot(root: string, sep: string, e: string)
    requires '/' !in e && (sep == "" || sep == "/") && e != ""
    ensures var shown := root + sep + e;
      && |root| < |shown| && shown[..|root|] == root && (sep == "/" ==> shown[|root|] == '/')
      && forall k :: |root| < k < |shown| ==> shown[k] != '/'
  {
    var shown := root + sep + e;
    forall k | |root| < k < |shown| ensures shown[k] != '/' {
      assert shown[k] == e[k - |root| - |sep|];
      assert e[k - |root| - |sep|] in e;
    }
  }

  /** Where the last element of what is shown begins: after its slash there is no other. */
  lemma {:induction false} LastElement(stack: seq<string>)
    requires stack != [] && Elements(stack)
    ensures var shown, root := "/" + Join(stack), "/" + Join(stack[..|stack| - 1]);
      && |root| < |shown| && shown[..|root|] == root && (|root| > 1 ==> shown[|root|] == '/')
      && (|root| > 1 <==> |stack| > 1)
      && forall k :: |root| < k < |shown| ==> shown[k] != '/'
  {
    hide Join;
    var init, e := stack[..|stack| - 1], stack[|stack| - 1];
    assert Element(e) && stack == init + [e];
    var sep := if init == [] then "" else "/";
    JoinSnoc(init, e);
    assert "/" + Join(stack) == "/" + Join(init) + sep + e;
    AfterRoot("/" + Join(init), sep, e);
    if init == [] { JoinNothing(); } else { JoinSomething(init); }
  }

  /** Goes back over the last element. */
  method Backtrack(buf: array<char>, p: string, start: nat, ghost stack: seq<string>) returns (w: nat)
    requires start <= if buf.Length == 0 then |p| else buf.Length
    requires stack != [] && Elements(stack) && Shown(buf, p, start) == "/" + Join(stack)
    ensures 1 <= w < start && Shown(buf, p, w) == "/" + Join(stack[..|stack| - 1])
    ensures w > 1 <==> |stack| > 1
  {
    hide Join;
    ghost var shown, root := Shown(buf, p, start), "/" + Join(stack[..|stack| - 1]);
    LastElement(stack);
    w := start - 1;
    if buf.Length == 0 {
      while w > 1 && p[w] != '/'
        invariant |root| <= w < start
      {
        assert p[w] == shown[w];
        w := w - 1;
      }
    } else {
      while w > 1 && buf[w] != '/'
        invariant |root| <= w < start
      {
        assert buf[w] == shown[w];
        w := w - 1;
      }
    }
    assert Shown(buf, p, w) == shown[..w];
  }

  /** The buffer in use: none, or one that also has room for a leading slash the path lacks. */
  predicate Fits(buf: array<char>, p: string, off: nat) {
    if buf.Length == 0 then off == 0 else buf.Length == |p| + off
  }

  /** Copies an element. `off` is one if the path has no leading slash. */
  method CopyElement(buf0: array<char>, p: string, r0: nat, w0: nat, ghost off: nat)
    returns (buf: array<char>, r: nat, w: nat)
    requires r0 < |p| && p[r0] != '/' && w0 <= r0 + off && Fits(buf0, p, off)
    modifies buf0
    ensures buf == buf0 || (fresh(buf) && buf0.Length == 0)
    ensures r0 < r <= |p| && '/' !in p[r0..r] && (r == |p| || p[r] == '/')
    ensures w == w0 + (r - r0) && Fits(buf, p, off)
    ensures Shown(buf, p, w) == old(Shown(buf0, p, w0)) + p[r0..r]
  {
    hide Shown;
    buf, r, w := buf0, r0, w0;
    ghost var head := Shown(buf, p, w);
    assert head + p[r0..r] == head;
    while r < |p| && p[r] != '/'
      invariant r0 <= r <= |p| && (forall k :: r0 <= k < r ==> p[k] != '/') && w == w0 + (r - r0)
      invariant buf == buf0 || (fresh(buf) && buf0.Length == 0)
      invariant Fits(buf, p, off)
      invariant Shown(buf, p, w) == head + p[r0..r]
    {
      assert head + p[r0..r + 1] == head + p[r0..r] + [p[r]];
      buf := BufApp(buf, p, w, p[r]);
      w, r := w + 1, r + 1;
    }
  }

  /** Adds an element, after a slash unless it is the first. */
  method Append(buf0: array<char>, p: string, r0: nat, w0: nat, ghost stack: seq<string>, ghost off: nat)
    returns (buf: array<char>, r: nat, w: nat)
    requires r0 < |p| && p[r0] != '/' && 1 <= w0 <= r0 + off && Fits(buf0, p, off)
    requires w0 > 1 ==> w0 < r0 + off
    requires w0 > 1 <==> stack != []
    requires Shown(buf0, p, w0) == "/" + Join(stack)
    modifies buf0
    ensures buf == buf0 || (fresh(buf) && buf0.Length == 0)
    ensures r0 < r <= |p| && '/' !in p[r0..r] && (r == |p| || p[r] == '/')
    ensures 1 < w <= r + off && Fits(buf, p, off)
    ensures Shown(buf, p, w) == "/" + Join(stack + [p[r0..r]])
  {
    hide Join;
    buf, w := buf0, w0;
    if w > 1 {
      buf := BufApp(buf, p, w, '/');
      w := w + 1;
    }
    buf, r, w := CopyElement(buf, p, r0, w, off);
    JoinSnoc(stack, p[r0..r]);
  }

  ghost function Rest(p: string, r: nat): string {
    if r <= |p| then p[r..] else ""
  }

  /** Taking the piece up to the next slash or the end. */
  lemma {:induction false} TakePiece(p: string, r: nat, k: nat, stack: seq<string>)
    requires r <= k <= |p| && '/' !in p[r..k] && (k == |p| || p[k] == '/')
    ensures PushAll(stack, Split(Rest(p, r))) == PushAll(Push(stack, p[r..k]), Split(Rest(p, k + 1)))
    ensures Last(Split(Rest(p, r))) == if k == |p| then p[r..k] else Last(Split(Rest(p, k + 1)))
    ensures k < |p| ==> Split(Rest(p, k)) == [""] + Split(Rest(p, k + 1))
  {
    var e, rest := p[r..k], p[k..];
    assert p[r..] == e + rest;
    SplitElement(e, rest);
    if k == |p| {
      assert PushAll(Push(stack, e), [""]) == PushAll(Push(stack, e), []);
    } else {
      assert rest[1..] == p[k + 1..];
      var segs := [e] + Split(p[k + 1..]);
      assert segs[1..] == Split(p[k + 1..]);
    }
  }

  // ---------------------------------------------------------------- the loop

  /** What is read and what is written fit: reading is at the start of a piece, and writing is behind
      reading, by at least one place after a slash that was not the leading one. */
  ghost predicate Placed(p: string, r: nat, w: nat, off: nat) {
    && p != "" && r <= |p| + 1 && 1 <= w <= r + off
    && (0 < r < |p| && p[r] != '/' ==> p[r - 1] == '/')
    && (0 < r <= |p| && r + off > 1 && p[r - 1] == '/' ==> w < r + off)
    && (r == |p| + 1 ==> p[|p| - 1] != '/')
  }

  /** What is left to read, pushed on what is written, is the whole; `dot` says that a final single dot
      has been read. */
  ghost predicate Meant(p: string, r: nat, stack: seq<string>, dot: bool) {
    && Elements(stack)
    && PushAll([], Split(p)) == PushAll(stack, Split(Rest(p, r)))
    && (Last(Split(p)) == "." <==> dot || Last(Split(Rest(p, r))) == ".")
  }

  lemma {:induction false} SkipSlash(p: string, r: nat, stack: seq<string>, dot: bool)
    requires r < |p| && p[r] == '/' && Meant(p, r, stack, dot)
    ensures Meant(p, r + 1, stack, dot)
  {
    hide Split, PushAll;
    assert p[r..r] == "";
    TakePiece(p, r, r, stack);
  }

  lemma {:induction false} SkipDot(p: string, r: nat, stack: seq<string>, dot: bool)
    requires r < |p| && p[r] == '.' && (r + 1 == |p| || p[r + 1] == '/') && Meant(p, r, stack, dot)
    ensures r + 1 == |p| ==> Meant(p, r + 1, stack, true)
    ensures r + 1 < |p| ==> Meant(p, r + 2, stack, dot)
  {
    hide PushAll;
    assert p[r..r + 1] == ".";
    TakePiece(p, r, r + 1, stack);
    assert Rest(p, |p|) == "" == Rest(p, |p| + 1);
  }

  lemma {:induction false} TakeDots(p: string, r: nat, stack: seq<string>, dot: bool)
    requires r + 1 < |p| && p[r] == '.' && p[r + 1] == '.' && (r + 2 == |p| || p[r + 2] == '/')
    requires Meant(p, r, stack, dot)
    ensures Meant(p, r + 3, if stack == [] then [] else stack[..|stack| - 1], dot)
  {
    hide PushAll, Split, Elements, Rest;
    assert p[r..r + 2] == "..";
    TakePiece(p, r, r + 2, stack);
    RestEnds(p);
    if stack != [] { ElementsLess(stack); }
  }

  lemma {:induction false} TakeElement(p: string, r: nat, k: nat, stack: seq<string>, dot: bool)
    requires r < k <= |p| && '/' !in p[r..k] && (k == |p| || p[k] == '/') && Meant(p, r, stack, dot)
    requires p[r..k] != "." && p[r..k] != ".."
    ensures Meant(p, k, stack + [p[r..k]], dot)
  {
    hide Split, PushAll, Elements, Rest;
    TakePiece(p, r, k, stack);
    ElementsMore(stack, p[r..k]);
    if k == |p| {
      RestEnds(p);
    } else {
      PushNothing(stack + [p[r..k]], Split(Rest(p, k + 1)));
    }
  }

  lemma {:induction false} ElementsMore(stack: seq<string>, e: string)
    requires Elements(stack) && e != "" && e != "." && e != ".." && '/' !in e
    ensures Elements(stack + [e])
  {
  }

  lemma {:induction false} ElementsLess(stack: seq<string>)
    requires Elements(stack) && stack != []
    ensures Elements(stack[..|stack| - 1])
  {
  }

  lemma {:induction false} RestEnds(p: string)
    ensures Rest(p, |p|) == "" == Rest(p, |p| + 1) && Split("") == [""]
  {
  }

  lemma {:induction false} SplitNothing()
    ensures Split("") == [""]
  {
  }

  lemma {:induction false} PushNothing(stack: seq<string>, segs: seq<string>)
    requires segs != []
    ensures PushAll(stack, [""] + segs) == PushAll(stack, segs) && Last([""] + segs) == Last(segs)
  {
    assert ([""] + segs)[1..] == segs;
  }

  lemma {:induction false} LastEmpty(p: string)
    requires p != ""
    ensures Last(Split(p)) == "" <==> p[|p| - 1] == '/'
  {
    if |p| > 1 {
      LastEmpty(p[1..]);
    } else {
      SplitNothing();
    }
  }

  /** Once everything is read, what is written and the trailing slash are what the reference says. */
  lemma {:induction false} AllRead(p: string, r: nat, w: nat, off: nat, stack: seq<string>, dot: bool)
    requires Placed(p, r, w, off) && Meant(p, r, stack, dot) && r >= |p| && (stack != [] ==> w > 1) && off <= 1
    requires off == 0 ==> p[0] == '/'
    ensures Clean(p) == Render(stack, (|p| > 1 && p[|p| - 1] == '/') || dot)
  {
    SplitNothing();
    LastEmpty(p);
    hide Split;
    assert Rest(p, r) == "";
    assert PushAll(stack, [""]) == PushAll(stack, []) == stack;
  }

  /** The loop over the path. */
  method ReadAll(buf0: array<char>, p: string, r0: nat, off: nat)
    returns (buf: array<char>, w: nat, dot: bool, ghost stack: seq<string>)
    requires p != "" && off <= 1 && r0 == 1 - off && (off == 0 <==> p[0] == '/')
    requires Fits(buf0, p, off) && (off == 1 ==> buf0[0] == '/') && (off == 0 ==> buf0.Length == 0)
    modifies buf0
    ensures Fits(buf, p, off) && (buf == buf0 || fresh(buf))
    ensures 1 <= w <= |p| + off && Shown(buf, p, w) == "/" + Join(stack) && (w > 1 <==> stack != [])
    ensures Clean(p) == Render(stack, (|p| > 1 && p[|p| - 1] == '/') || dot)
    ensures w > 1 && ((|p| > 1 && p[|p| - 1] == '/') || dot) ==> w < |p| + off
  {
    hide Split, PushAll, Shown, Meant, Join, Elements, Render, Clean;
    buf, w, dot, stack := buf0, 1, false, [];
    var r := r0;
    Started(buf, p, r, off);
    while r < |p|
      invariant Placed(p, r, w, off) && Meant(p, r, stack, dot)
      invariant (w > 1 <==> stack != []) && (dot ==> r == |p| && w < r + off)
      invariant Fits(buf, p, off) && (buf == buf0 || fresh(buf))
      invariant w <= |p| + off && Shown(buf, p, w) == "/" + Join(stack)
      decreases |p| + 1 - r
    {
      if p[r] == '/' {
        SkipSlash(p, r, stack, dot);
        r := r + 1;
      } else if p[r] == '.' && r + 1 == |p| {
        SkipDot(p, r, stack, dot);
        dot := true;
        r := r + 1;
      } else if p[r] == '.' && p[r + 1] == '/' {
        SkipDot(p, r, stack, dot);
        r := r + 2;
      } else if p[r] == '.' && p[r + 1] == '.' && (r + 2 == |p| || p[r + 2] == '/') {
        TakeDots(p, r, stack, dot);
        r := r + 3;
        if w > 1 {
          MeantElements(p, r - 3, stack, dot);
          w := Backtrack(buf, p, w, stack);
          stack := stack[..|stack| - 1];
        }
      } else {
        var k := r;
        buf, r, w := Append(buf, p, r, w, stack, off);
        RealElement(p, k, r);
        TakeElement(p, k, r, stack, dot);
        stack := stack + [p[k..r]];
      }
    }
    AllRead(p, r, w, off, stack, dot);
  }

  lemma {:induction false} MeantElements(p: string, r: nat, stack: seq<string>, dot: bool)
    requires Meant(p, r, stack, dot)
    ensures Elements(stack)
  {
  }

  /** What is neither a single nor a double dot piece is an element. */
  lemma {:induction false} RealElement(p: string, k: nat, r: nat)
    requires k < r <= |p| && (r == |p| || p[r] == '/')
    requires !(p[k] == '.' && (k + 1 == |p| || p[k + 1] == '/'))
    requires !(p[k] == '.' && k + 1 < |p| && p[k + 1] == '.' && (k + 2 == |p| || p[k + 2] == '/'))
    ensures p[k..r] != "." && p[k..r] != ".."
  {
  }

  lemma {:induction false} Started(buf: array<char>, p: string, r: nat, off: nat)
    requires p != "" && off <= 1 && r == 1 - off && (off == 0 <==> p[0] == '/')
    requires Fits(buf, p, off) && (off == 1 ==> buf[0] == '/') && (off == 0 ==> buf.Length == 0)
    ensures Placed(p, r, 1, off) && Meant(p, r, [], false) && Shown(buf, p, 1) == "/" + Join([])
  {
    if off == 0 {
      assert p == "/" + p[1..];
      SplitSlash(p[1..]);
      PushNothing([], Split(p[1..]));
    }
  }

  /** `cleanPath`: for every path what the reference says, without reading or writing out of bounds. */
  method Canonicalize(p: string) returns (res: string)
    ensures res == Clean(p)
  {
    if p == "" {
      EmptyPath();
      return "/";
    }
    hide Split, PushAll, Join, Clean;
    var n, r, off := |p|, 1, 0;
    var buf := new char[0];
    if p[0] != '/' {
      r, off := 0, 1;
      buf := new char[n + 1];
      buf[0] := '/';
    }
    var trailing := n > 1 && p[n - 1] == '/';
    var w, dot;
    ghost var stack;
    buf, w, dot, stack := ReadAll(buf, p, r, off);
    if (trailing || dot) && w > 1 {
      buf := BufApp(buf, p, w, '/');
      w := w + 1;
    }
    if buf.Length == 0 {
      return p[..w];
    }
    return buf[..w];
  }

  lemma {:induction false} EmptyPath()
    ensures Clean("") == "/"
  {
    SplitNothing();
    assert PushAll([], [""]) == PushAll([], []) == [];
  }
}
