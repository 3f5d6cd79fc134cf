/** Absolute paths: their components, and the canonical path the shell computes from one. */
module Paths {
  datatype Rest = End | More(path: string)

  /** Number of characters before the first slash. */
  function NameLen(s: string): (n: nat)
    ensures n <= |s|
  {
    if s == "" || s[0] == '/' then 0 else 1 + NameLen(s[1..])
  }

  /** The names between the slashes; runs of slashes count as one. */
  function Components(s: string): seq<string>
    decreases |s|
  {
    if s == "" then []
    else if s[0] == '/' then Components(s[1..])
    else [s[..NameLen(s)]] + Components(s[NameLen(s)..])
  }

  predicate SlashFree(s: string) {
    '/' !in s
  }

  predicate Proper(c: string) {
    c != "" && SlashFree(c)
  }

  predicate AllProper(cs: seq<string>) {
    forall i :: 0 <= i < |cs| ==> Proper(cs[i])
  }

  lemma {:induction false} NameLenIs(s: string, k: nat)
    requires k <= |s| && SlashFree(s[..k]) && (k < |s| ==> s[k] == '/')
    ensures NameLen(s) == k
  {
    if k > 0 {
      assert s[0] == s[..k][0] && s[0] in s[..k];
      assert s[1..][..k - 1] == s[..k][1..];
      NameLenIs(s[1..], k - 1);
    }
  }

  lemma {:induction false} NameLenSlashFree(s: string)
    ensures SlashFree(s[..NameLen(s)])
    ensures s != "" && s[0] != '/' ==> NameLen(s) > 0
  {
    if s != "" && s[0] != '/' {
      NameLenSlashFree(s[1..]);
      assert s[..NameLen(s)] == [s[0]] + s[1..][..NameLen(s[1..])];
    }
  }

  lemma {:induction false} ComponentsProper(s: string)
    ensures AllProper(Components(s))
    decreases |s|
  {
    if s != "" {
      if s[0] == '/' {
        ComponentsProper(s[1..]);
      } else {
        NameLenSlashFree(s);
        ComponentsProper(s[NameLen(s)..]);
      }
    }
  }

  /** The names still to come. */
  function Remaining(rest: Rest): seq<string> {
    if rest.End? then [] else Components(rest.path)
  }

  /** The name at hand, if there is one, and those still to come. */
  function Left(name: string, rest: Rest): seq<string> {
    if name == "" then [] else [name] + Remaining(rest)
  }

  lemma LeftStep(all: seq<string>, depth: nat, name: string, rest: Rest)
    requires depth <= |all| && all[depth..] == Left(name, rest) && name != ""
    ensures depth < |all| && all[depth] == name && all[depth + 1..] == Remaining(rest)
  {
    hide Remaining;
    assert all[depth..][0] == all[depth] && all[depth..][1..] == all[depth + 1..];
  }

  /** Skips the slashes a path starts with. */
  method SkipSlashes(p: string) returns (i: nat)
    ensures i <= |p| && Components(p[i..]) == Components(p) && (i < |p| ==> p[i] != '/')
  {
    i := 0;
    if p != "" && p[0] == '/' {
      i := 1;
      while i < |p| && p[i] == '/'
        invariant 1 <= i <= |p| && Components(p[i..]) == Components(p)
      {
        assert p[i..][1..] == p[i + 1..];
        i := i + 1;
      }
    }
  }

  /** Splits off the first name of a path. What is left starts with the slash behind it. */
  method PathParse(p: string) returns (name: string, rest: Rest)
    ensures SlashFree(name) && (name == "" ==> rest == End)
    ensures Components(p) == Left(name, rest)
  {
    hide Components;
    var from := SkipSlashes(p);
    var i := from;
    name := "";
    while i < |p| && p[i] != '/'
      invariant from <= i <= |p| && name == p[from..i] && SlashFree(name)
    {
      name := name + [p[i]];
      i := i + 1;
    }
    FirstComponent(p[from..], name, i - from);
    assert p[from..][i - from..] == p[i..];
    rest := if i == |p| then End else More(p[i..]);
  }

  /** Goes on to the next name, if there is one. */
  method NextName(rest: Rest) returns (name: string, more: Rest)
    ensures SlashFree(name) && Left(name, more) == Remaining(rest)
  {
    name, more := "", End;
    if rest.More? {
      name, more := PathParse(rest.path);
    }
  }

  /** A path that does not start with a slash starts with its first name. */
  lemma FirstComponent(s: string, name: string, k: nat)
    requires k <= |s| && name == s[..k] && SlashFree(name) && (k < |s| ==> s[k] == '/') && (s != "" ==> s[0] != '/')
    ensures Components(s) == if name == "" then [] else [name] + Components(s[k..])
    ensures k == |s| ==> Components(s[k..]) == []
  {
    NameLenIs(s, k);
  }

  // ---- canonical paths ----

  /** One name: "." stays, ".." goes up, anything else goes down. */
  function Move(stack: seq<string>, name: string): seq<string> {
    if name == "." then stack
    else if name == ".." then if stack == [] then [] else stack[..|stack| - 1]
    else stack + [name]
  }

  function WashFrom(stack: seq<string>, cs: seq<string>): seq<string>
    decreases |cs|
  {
    if cs == [] then stack else WashFrom(Move(stack, cs[0]), cs[1..])
  }

  /** The canonical form of a list of names. */
  function Wash(cs: seq<string>): seq<string> {
    WashFrom([], cs)
  }

  function Join(cs: seq<string>): string {
    if cs == [] then "" else Join(cs[..|cs| - 1]) + "/" + cs[|cs| - 1]
  }

  /** The path with these names. */
  function Render(cs: seq<string>): string {
    if cs == [] then "/" else Join(cs)
  }

  /** Index of the last slash, as `strrchr` finds it. */
  ghost predicate LastSlash(s: string, k: nat) {
    k < |s| && s[k] == '/' && forall j :: k < j < |s| ==> s[j] != '/'
  }

  method Strrchr(s: string) returns (k: nat)
    requires '/' in s
    ensures LastSlash(s, k)
  {
    var i := |s|;
    while s[i - 1] != '/'
      decreases i
      invariant 0 < i <= |s|
      invariant forall j :: i <= j < |s| ==> s[j] != '/'
      invariant '/' in s[..i]
    {
      assert s[..i] == s[..i - 1] + [s[i - 1]];
      i := i - 1;
    }
    k := i - 1;
  }

  /** Cutting a rendered path at its last slash removes the last name. */
  lemma JoinLast(cs: seq<string>, k: nat)
    requires cs != [] && AllProper(cs) && LastSlash(Join(cs), k)
    ensures k == |Join(cs[..|cs| - 1])| && Join(cs)[..k] == Join(cs[..|cs| - 1])
    ensures Join(cs)[k..] == "/" + cs[|cs| - 1]
  {
    var a, c := Join(cs[..|cs| - 1]), cs[|cs| - 1];
    assert Proper(c);
    assert Join(cs) == a + ("/" + c);
    assert Join(cs)[|a|] == '/';
    forall j | |a| < j < |Join(cs)| ensures Join(cs)[j] != '/' {
      assert Join(cs)[j] == c[j - |a| - 1] && c[j - |a| - 1] in c;
    }
  }

  lemma {:induction false} JoinStarts(cs: seq<string>)
    requires cs != []
    ensures |Join(cs)| > 0 && Join(cs)[0] == '/'
    ensures AllProper(cs) ==> |Join(cs)| > 1
  {
    if |cs| > 1 {
      JoinStarts(cs[..|cs| - 1]);
    } else {
      assert Join(cs[..0]) == "" && Join(cs) == "/" + cs[0];
    }
    if AllProper(cs) {
      assert Proper(cs[|cs| - 1]);
    }
  }

  lemma RenderJoin(cs: seq<string>)
    requires AllProper(cs)
    ensures '/' in Render(cs) && (Render(cs) == "/" <==> cs == []) && Render(cs)[0] == '/'
  {
    if cs != [] {
      JoinStarts(cs);
      assert Join(cs)[0] in Join(cs);
    }
  }

  /** The effect of ".." on the text of a path. */
  lemma UpRendered(cs: seq<string>, k: nat)
    requires AllProper(cs) && LastSlash(Render(cs), k)
    ensures Render(Move(cs, "..")) == if k != 0 then Render(cs)[..k] else Render(cs)[..1]
  {
    if cs != [] {
      JoinLast(cs, k);
      var up := cs[..|cs| - 1];
      if up != [] {
        JoinStarts(up);
      } else {
        assert Join(cs)[..1] == "/";
      }
    }
  }

  lemma JoinSnoc(cs: seq<string>, name: string)
    ensures Join(cs + [name]) == Join(cs) + "/" + name
  {
    assert (cs + [name])[..|cs|] == cs;
  }

  lemma DownRendered(cs: seq<string>, name: string)
    requires AllProper(cs) && name != "." && name != ".."
    ensures Render(Move(cs, name)) == Render(cs) + (if Render(cs) != "/" then "/" else "") + name
  {
    RenderJoin(cs);
    JoinSnoc(cs, name);
    assert Join([]) == "";
    hide Join, AllProper;
    if cs == [] {
      assert Move(cs, name) == cs + [name];
    }
  }

  lemma MoveProper(cs: seq<string>, name: string)
    requires AllProper(cs) && Proper(name)
    ensures AllProper(Move(cs, name))
  {
  }

  /** The edit of the text for one name. */
  method MoveText(text: string, name: string, ghost stack: seq<string>) returns (r: string)
    requires text == Render(stack) && AllProper(stack)
    ensures r == Render(Move(stack, name))
  {
    hide Render, Proper, LastSlash;
    RenderJoin(stack);
    r := text;
    if name == ".." {
      var slash := Strrchr(r);
      UpRendered(stack, slash);
      r := if slash != 0 then r[..slash] else r[..1];
    } else if name != "." {
      DownRendered(stack, name);
      if r != "/" {
        r := r + "/";
      }
      r := r + name;
    }
  }

  /** The sizes of the buffers for a name and for a path, terminator included. */
  const NAME_BUFFER := 16
  const PATH_BUFFER := 128

  /** The text after every name, and the name itself, fit their buffers. */
  ghost predicate FitsAfter(cs: seq<string>, k: nat)
    requires k < |cs|
  {
    |cs[k]| < NAME_BUFFER && |Render(Wash(cs[..k + 1]))| < PATH_BUFFER
  }

  ghost predicate WashFits(cs: seq<string>) {
    forall k: nat :: k < |cs| ==> FitsAfter(cs, k)
  }

  /** `Overruns`: a name or the text is longer than its buffer, a case of which nothing is said. */
  datatype Washed = Text(path: string) | Overruns

  /** The shell's path cleaning: the text of the canonical path. */
  method WashPath(path: string) returns (r: Washed)
    requires path != "" && path[0] == '/'
    ensures r == if WashFits(Components(path)) then Text(Render(Wash(Components(path)))) else Overruns
  {
    hide Components, Render, Proper, Left, WashFrom, Move;
    RenderJoin([]);
    var name, rest := PathParse(path);
    ghost var stack: seq<string>, all, depth := [], Components(path), 0;
    assert all[0..] == all && all[..0] == [];
    LeftNone(name, rest);
    WashNone([]);
    var text := "/";
    ComponentsProper(path);
    while name != ""
      invariant text == Render(stack) && AllProper(stack) && AllProper(all)
      invariant depth <= |all| && all[depth..] == Left(name, rest) && stack == Wash(all[..depth])
      invariant forall k: nat :: k < depth ==> FitsAfter(all, k)
      decreases |all| - depth
    {
      LeftStep(all, depth, name, rest);
      WashSnoc([], all[..depth], name);
      assert all[..depth] + [name] == all[..depth + 1];
      if |name| >= NAME_BUFFER {
        assert !FitsAfter(all, depth);
        return Overruns;
      }
      MoveProper(stack, name);
      text := MoveText(text, name, stack);
      if |text| >= PATH_BUFFER {
        assert !FitsAfter(all, depth);
        return Overruns;
      }
      stack, depth := Move(stack, name), depth + 1;
      name, rest := NextName(rest);
    }
    LeftNone(name, rest);
    assert all[..depth] == all;
    r := Text(text);
  }

  lemma {:induction false} ComponentsLength(s: string)
    ensures |Join(Components(s))| <= |s| + 1
    ensures s != "" && s[0] == '/' ==> |Join(Components(s))| <= |s|
    decreases |s|
  {
    if s != "" {
      if s[0] == '/' {
        ComponentsLength(s[1..]);
      } else {
        var n := NameLen(s);
        ComponentsLength(s[n..]);
        JoinCons(s[..n], Components(s[n..]));
        AfterName(s);
      }
    }
  }

  /** What follows a name is nothing, or begins with a slash. */
  lemma {:induction false} AfterName(s: string)
    ensures NameLen(s) < |s| ==> s[NameLen(s)] == '/'
  {
    if s != "" && s[0] != '/' {
      AfterName(s[1..]);
    }
  }

  lemma {:induction false} JoinCons(name: string, cs: seq<string>)
    ensures |Join([name] + cs)| == 1 + |name| + |Join(cs)|
  {
    var all := [name] + cs;
    if cs == [] {
      assert all[..0] == [] && Join(all[..0]) == "";
    } else {
      JoinCons(name, cs[..|cs| - 1]);
      assert all[..|all| - 1] == [name] + cs[..|cs| - 1];
    }
  }

  lemma {:induction false} WashLength(cs: seq<string>)
    ensures |Join(Wash(cs))| <= |Join(cs)|
  {
    hide Join, Move, WashFrom;
    if cs == [] {
      WashNone([]);
    } else {
      var k := |cs| - 1;
      WashLength(cs[..k]);
      WashSnoc([], cs[..k], cs[k]);
      assert cs[..k] + [cs[k]] == cs;
      MoveLength(Wash(cs[..k]), cs[k]);
      JoinOne(cs);
    }
  }

  lemma JoinOne(cs: seq<string>)
    requires cs != []
    ensures |Join(cs)| == |Join(cs[..|cs| - 1])| + 1 + |cs[|cs| - 1]|
  {
  }

  lemma MoveLength(stack: seq<string>, name: string)
    ensures |Join(Move(stack, name))| <= |Join(stack)| + 1 + |name|
  {
    JoinSnoc(stack, name);
  }

  lemma {:induction false} JoinPrefix(cs: seq<string>, k: nat)
    requires k <= |cs|
    ensures |Join(cs[..k])| <= |Join(cs)|
    decreases |cs|
  {
    if k < |cs| {
      JoinPrefix(cs[..|cs| - 1], k);
      assert cs[..|cs| - 1][..k] == cs[..k];
    } else {
      assert cs[..k] == cs;
    }
  }

  /** Cleaning never needs more room than the path itself: the buffers suffice for any path that fits one,
      exactly when all its names do. */
  lemma WashRoom(path: string)
    requires path != "" && path[0] == '/' && |path| < 128
    ensures WashFits(Components(path)) <==> forall k :: 0 <= k < |Components(path)| ==> |Components(path)[k]| < 16
  {
    hide Components, Wash, Join;
    var cs := Components(path);
    ComponentsLength(path);
    forall k: nat | k < |cs| ensures |Render(Wash(cs[..k + 1]))| < PATH_BUFFER && (FitsAfter(cs, k) <==> |cs[k]| < NAME_BUFFER) {
      WashLength(cs[..k + 1]);
      JoinPrefix(cs, k + 1);
    }
  }

  lemma LeftNone(name: string, rest: Rest)
    ensures name == "" <==> Left(name, rest) == []
  {
  }

  lemma WashNone(stack: seq<string>)
    ensures WashFrom(stack, []) == stack
  {
  }

  // ---- laws ----

  lemma {:induction false} ComponentsAppend(s: string, c: string)
    requires SlashFree(c) && c != ""
    ensures Components(s + "/" + c) == Components(s) + [c]
    decreases |s|
  {
    var t := s + "/" + c;
    if s == "" {
      assert t[1..] == c && c[0] in c;
      assert c[..|c|] == c;
      NameLenIs(c, |c|);
      assert Components(c) == [c] + Components(c[|c|..]);
    } else if s[0] == '/' {
      assert t[1..] == s[1..] + "/" + c;
      ComponentsAppend(s[1..], c);
    } else {
      NameLenSlashFree(s);
      var k := NameLen(s);
      FirstSlash(s);
      assert t[..k] == s[..k] && t[k..] == s[k..] + "/" + c;
      NameLenIs(t, k);
      ComponentsAppend(s[k..], c);
    }
  }

  lemma {:induction false} FirstSlash(s: string)
    ensures NameLen(s) < |s| ==> s[NameLen(s)] == '/'
  {
    if s != "" && s[0] != '/' {
      FirstSlash(s[1..]);
    }
  }

  /** Rendering and splitting are inverse. */
  lemma {:induction false} RenderRoundTrip(cs: seq<string>)
    requires AllProper(cs)
    ensures Components(Render(cs)) == cs && Components(Join(cs)) == cs
  {
    if cs == [] {
      assert Components("/") == Components("/"[1..]);
    } else {
      var n := |cs| - 1;
      assert Proper(cs[n]);
      RenderRoundTrip(cs[..n]);
      ComponentsAppend(Join(cs[..n]), cs[n]);
      assert cs[..n] + [cs[n]] == cs;
    }
  }

  /** Neither "." nor ".." among the names. */
  predicate Clean(cs: seq<string>) {
    forall i :: 0 <= i < |cs| ==> cs[i] != "." && cs[i] != ".."
  }

  lemma {:induction false} WashClean(stack: seq<string>, cs: seq<string>)
    requires Clean(stack)
    ensures Clean(WashFrom(stack, cs))
    ensures Clean(cs) ==> WashFrom(stack, cs) == stack + cs
    decreases |cs|
  {
    if cs != [] {
      WashClean(Move(stack, cs[0]), cs[1..]);
      if Clean(cs) {
        assert stack + cs == stack + [cs[0]] + cs[1..];
      }
    }
  }

  lemma {:induction false} WashFromClean(stack: seq<string>, cs: seq<string>)
    requires Clean(stack) && AllProper(stack) && AllProper(cs)
    ensures Clean(WashFrom(stack, cs)) && AllProper(WashFrom(stack, cs))
    ensures Clean(cs) ==> WashFrom(stack, cs) == stack + cs
    decreases |cs|
  {
    WashClean(stack, cs);
    if cs != [] {
      assert Proper(cs[0]);
      MoveProper(stack, cs[0]);
      WashFromClean(Move(stack, cs[0]), cs[1..]);
    }
  }

  lemma {:induction false} WashSnoc(stack: seq<string>, cs: seq<string>, name: string)
    ensures WashFrom(stack, cs + [name]) == Move(WashFrom(stack, cs), name)
    decreases |cs|
  {
    if cs == [] {
      assert (cs + [name])[1..] == [];
    } else {
      assert (cs + [name])[1..] == cs[1..] + [name];
      WashSnoc(Move(stack, cs[0]), cs[1..], name);
    }
  }

  /** Cleaning a clean path changes nothing, and cleaning yields a clean path. */
  lemma WashIdempotent(path: string)
    ensures
      var r := Render(Wash(Components(path)));
      && Render(Wash(Components(r))) == r
      && Clean(Components(r)) && AllProper(Components(r))
  {
    ComponentsProper(path);
    var cs := Wash(Components(path));
    WashFromClean([], Components(path));
    RenderRoundTrip(cs);
    WashFromClean([], cs);
    assert [] + cs == cs;
  }
}
