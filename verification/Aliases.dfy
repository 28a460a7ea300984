/** Paths that begin with an alias (fdt_ro.c): a property of "/aliases" says what stands for its name. */
module Aliases {
  import opened Options
  import opened Bytes
  import opened Structure
  import opened Blob
  import opened Walk
  import opened Read
  import opened Meaning
  import opened Core
  import opened Paths

  /** "/aliases". */
  const ALIASES: bytes := [SLASH, 0x61, 0x6c, 0x69, 0x61, 0x73, 0x65, 0x73]

  /** A string property's value up to its terminator. */
  function CString(val: bytes): bytes {
    var k := FindNul(val, 0);
    if k == -1 then val else val[..k]
  }

  predicate Absolute(path: bytes) {
    path != [] && path[0] == SLASH
  }

  /** How many of the properties in front of the first child have names that are not in `seen`. */
  function Unseen(it: Items, t: bytes, seen: set<bytes>): nat {
    match it
    case Flat(e, r) =>
      (if e.Prop? && Str(t, e.nameoff).Some? && Str(t, e.nameoff).value !in seen then 1 else 0) + Unseen(r, t, seen)
    case _ => 0
  }

  lemma {:induction false} UnseenLess(it: Items, t: bytes, seen: set<bytes>, name: bytes)
    ensures Unseen(it, t, seen + {name}) <= Unseen(it, t, seen)
    ensures PropByName(it, t, name).PropThere? && name !in seen ==> Unseen(it, t, seen + {name}) < Unseen(it, t, seen)
    decreases it
  {
    hide Str, Plug;
    if it.Flat? {
      UnseenLess(it.rest, t, seen, name);
    }
  }

  /** Where a path leads, or the error. */
  datatype Way =
    | Leads(c: Ctx, name: bytes, body: Items, rest: Items)
    | Ends(err: int)

  function Straight(f: Found): Way {
    match f
    case There(c, n, b, r) => Leads(c, n, b, r)
    case Missing => Ends(-ERR_NOTFOUND)
  }

  /**
   `fdt_path_offset`, from the root that `top` begins with. An alias may stand for a path that
   begins with an alias; one that comes back to itself is looked up for ever.
   */
  function Follow(top: Items, t: bytes, path: bytes, seen: set<bytes>): Way
    requires top.Node?
    decreases match ByPath(Hole, top.name, top.body, top.rest, ALIASES) case There(_, _, b, _) => Unseen(b, t, seen) case Missing => 0
  {
    var q := NextSlash(path, 0);
    var aliases := ByPath(Hole, top.name, top.body, top.rest, ALIASES);
    if Absolute(path) then Straight(ByPath(Hole, top.name, top.body, top.rest, path))
    else if aliases.Missing? then Ends(-ERR_BADPATH)
    else
      var p := PropByName(aliases.body, t, path[..q]);
      if p.NoProp? then Ends(-ERR_BADPATH)
      else if path[..q] in seen then Ends(-ASTRAY)
      else
        UnseenLess(aliases.body, t, seen, path[..q]);
        match Follow(top, t, CString(p.val), seen + {path[..q]})
        case Ends(err) => Ends(err)
        case Leads(c, n, b, r) => Straight(ByPath(c, n, b, r, path[q..]))
  }

  lemma {:induction false} FollowPlace(top: Items, t: bytes, path: bytes, seen: set<bytes>)
    requires top.Node?
    ensures var w := Follow(top, t, path, seen);
            if w.Leads? then top == Plug(w.c, Node(w.name, w.body, w.rest)) else w.err < 0
    decreases match ByPath(Hole, top.name, top.body, top.rest, ALIASES) case There(_, _, b, _) => Unseen(b, t, seen) case Missing => 0
  {
    hide ByPath, PropByName, CString, Plug;
    var q := NextSlash(path, 0);
    var aliases := ByPath(Hole, top.name, top.body, top.rest, ALIASES);
    TopPlug(top);
    if Absolute(path) {
      ByPathPlace(Hole, top.name, top.body, top.rest, path);
    } else if aliases.There? {
      var p := PropByName(aliases.body, t, path[..q]);
      if p.PropThere? && path[..q] !in seen {
        UnseenLess(aliases.body, t, seen, path[..q]);
        FollowPlace(top, t, CString(p.val), seen + {path[..q]});
        var w := Follow(top, t, CString(p.val), seen + {path[..q]});
        if w.Leads? {
          ByPathPlace(w.c, w.name, w.body, w.rest, path[q..]);
        }
      }
    }
  }

  lemma TopPlug(top: Items)
    ensures Plug(Hole, top) == top && Off(Hole) == 0
  {
  }

  /** The value of an alias, if there is one. */
  function AliasValue(top: Items, t: bytes, name: bytes): Option<bytes>
    requires top.Node?
  {
    var aliases := ByPath(Hole, top.name, top.body, top.rest, ALIASES);
    if aliases.Missing? then None
    else
      var p := PropByName(aliases.body, t, name);
      if p.PropThere? then Some(CString(p.val)) else None
  }

  /** How many aliases are left to be looked up. */
  function LeftToSee(top: Items, t: bytes, seen: set<bytes>): nat
    requires top.Node?
  {
    match ByPath(Hole, top.name, top.body, top.rest, ALIASES)
    case There(_, _, b, _) => Unseen(b, t, seen)
    case Missing => 0
  }

  /** The lookup in one step. */
  lemma FollowStep(top: Items, t: bytes, path: bytes, seen: set<bytes>)
    requires top.Node?
    ensures var q := NextSlash(path, 0);
      var v := AliasValue(top, t, path[..q]);
      Follow(top, t, path, seen) ==
        if Absolute(path) then Straight(ByPath(Hole, top.name, top.body, top.rest, path))
        else if v.None? then Ends(-ERR_BADPATH)
        else if path[..q] in seen then Ends(-ASTRAY)
        else
          var w := Follow(top, t, v.value, seen + {path[..q]});
          if w.Leads? then Straight(ByPath(w.c, w.name, w.body, w.rest, path[q..])) else w
    ensures var q := NextSlash(path, 0);
      AliasValue(top, t, path[..q]).Some? && path[..q] !in seen ==> LeftToSee(top, t, seen + {path[..q]}) < LeftToSee(top, t, seen)
  {
    hide ByPath, PropByName, CString, Unseen;
    var aliases := ByPath(Hole, top.name, top.body, top.rest, ALIASES);
    if aliases.There? {
      UnseenLess(aliases.body, t, seen, path[..NextSlash(path, 0)]);
    }
  }

  /** The way as an offset. */
  function Offset(w: Way): int {
    if w.Leads? then Off(w.c) else w.err
  }

  /** What the walk down a path gives from a place in the tree. */
  lemma DownIs(s: bytes, top: Items, c: Ctx, n: bytes, b: Items, r: Items, path: bytes)
    requires Block(s, top) && top == Plug(c, Node(n, b, r))
    ensures PathFrom(s, Off(c), path) == Offset(Straight(ByPath(c, n, b, r, path)))
    ensures 0 <= Off(c) <= |s| && Off(c) % 4 == 0
    ensures var f := ByPath(c, n, b, r, path); f.There? ==> Holds(s, Off(f.c), Node(f.name, f.body, f.rest)) && 0 <= Off(f.c) <= |s| && Off(f.c) % 4 == 0
  {
    hide Holds, Plug, ByPath, PathFrom, Size, Off;
    assert Holds(s, 0, top);
    PathOk(s, c, n, b, r, path);
    ByPathPlace(c, n, b, r, path);
    HoldsInner(s, 0, c, Node(n, b, r));
    HoldsFits(s, Off(c), Node(n, b, r));
    OffAligned(c);
    var f := ByPath(c, n, b, r, path);
    if f.There? {
      HoldsInner(s, 0, f.c, Node(f.name, f.body, f.rest));
      HoldsFits(s, Off(f.c), Node(f.name, f.body, f.rest));
      OffAligned(f.c);
    }
  }

  /** `fdt_get_alias_namelen`. */
  method ReadAlias(fdt: array<byte>, name: bytes, ghost top: Items) returns (val: Option<bytes>)
    requires Stringed(fdt[..]) && Block(StructOf(fdt[..]), top) && top.Node?
    ensures val == AliasValue(top, StringsOf(fdt[..]), name)
  {
    hide Hdr, Block, ByPath, PathFrom, PropByName, CString, Plug, GetProperty, PropVal, NextTag, Off, HeadSize, Holds, Size;
    ghost var s, t := StructOf(fdt[..]), StringsOf(fdt[..]);
    TopPlug(top);
    DownIs(s, top, Hole, top.name, top.body, top.rest, ALIASES);
    ghost var aliases := ByPath(Hole, top.name, top.body, top.rest, ALIASES);
    var o := ReadPathFrom(fdt, 0, ALIASES);
    if o < 0 {
      return None;
    }
    GetPropertyOk(s, t, o, aliases.name, aliases.body, aliases.rest, name);
    if PropByName(aliases.body, t, name).PropThere? {
      FoundVal(s, t, o, aliases.name, aliases.body, aliases.rest, name);
    }
    var at, text := ReadGetProp(fdt, o, name);
    val := if at < 0 then None else Some(CString(text));
  }

  /** `fdt_path_offset`. The aliases looked up so far are kept to notice the one that comes back. */
  method ReadPathOffset(fdt: array<byte>, path: bytes, seen: set<bytes>, ghost top: Items) returns (r: int)
    requires Stringed(fdt[..]) && Block(StructOf(fdt[..]), top) && top.Node?
    ensures r == Offset(Follow(top, StringsOf(fdt[..]), path, seen))
    decreases LeftToSee(top, StringsOf(fdt[..]), seen)
  {
    hide Hdr, Block, ByPath, PathFrom, Plug, Off, Follow, AliasValue, LeftToSee, Holds;
    ghost var s, t := StructOf(fdt[..]), StringsOf(fdt[..]);
    TopPlug(top);
    FollowStep(top, t, path, seen);
    if path != [] && path[0] == SLASH {
      DownIs(s, top, Hole, top.name, top.body, top.rest, path);
      r := ReadPathFrom(fdt, 0, path);
      return;
    }
    var q := NextSlash(path, 0);
    var val := ReadAlias(fdt, path[..q], top);
    if val.None? {
      return -ERR_BADPATH;
    }
    if path[..q] in seen {
      return -ASTRAY;
    }
    r := ReadPathOffset(fdt, val.value, seen + {path[..q]}, top);
    FollowPlace(top, t, val.value, seen + {path[..q]});
    ghost var w := Follow(top, t, val.value, seen + {path[..q]});
    if r < 0 {
      return;
    }
    DownIs(s, top, w.c, w.name, w.body, w.rest, path[q..]);
    r := ReadPathFrom(fdt, r, path[q..]);
  }

  // ---------- What an alias stands for ----------

  /** Going down two paths, one behind the other. */
  lemma {:induction false} ByPathAppend(c: Ctx, n: bytes, b: Items, r: Items, path: bytes, rest: bytes)
    requires rest == [] || rest[0] == SLASH
    ensures var f := ByPath(c, n, b, r, path);
            ByPath(c, n, b, r, path + rest) == if f.There? then ByPath(f.c, f.name, f.body, f.rest, rest) else Missing
    decreases |path|
  {
    hide ChildByName;
    if path == [] {
      assert path + rest == rest;
    } else if path[0] == SLASH {
      assert (path + rest)[1..] == path[1..] + rest;
      ByPathAppend(c, n, b, r, path[1..], rest);
    } else {
      var q := NextSlash(path, 0);
      NextInFront(path, rest, 0);
      assert (path + rest)[..q] == path[..q] && (path + rest)[q..] == path[q..] + rest;
      var f := ChildByName(b, path[..q]);
      if f.There? {
        ByPathAppend(Compose(c, Inside(n, f.c, r)), f.name, f.body, f.rest, path[q..], rest);
      }
    }
  }

  lemma {:induction false} NextInFront(path: bytes, rest: bytes, i: nat)
    requires i <= |path| && (rest == [] || rest[0] == SLASH)
    ensures NextSlash(path + rest, i) == NextSlash(path, i)
    decreases |path| - i
  {
    if i < |path| && path[i] != SLASH {
      NextInFront(path, rest, i + 1);
    }
  }

  /** What follows a path is followed from where the path leads, whether that begins with an alias or not. */
  lemma FollowAppend(top: Items, t: bytes, path: bytes, rest: bytes, seen: set<bytes>)
    requires top.Node? && (rest == [] || (rest[0] == SLASH && path != []))
    ensures var w := Follow(top, t, path, seen);
            Follow(top, t, path + rest, seen) == if w.Leads? then Straight(ByPath(w.c, w.name, w.body, w.rest, rest)) else w
  {
    hide ByPath, PropByName, CString, Unseen;
    if Absolute(path) {
      ByPathAppend(Hole, top.name, top.body, top.rest, path, rest);
    } else {
      var q := NextSlash(path, 0);
      NextInFront(path, rest, 0);
      assert (path + rest)[..q] == path[..q] && (path + rest)[q..] == path[q..] + rest;
      var aliases := ByPath(Hole, top.name, top.body, top.rest, ALIASES);
      if aliases.There? {
        var p := PropByName(aliases.body, t, path[..q]);
        if p.PropThere? && path[..q] !in seen {
          UnseenLess(aliases.body, t, seen, path[..q]);
          var w := Follow(top, t, CString(p.val), seen + {path[..q]});
          if w.Leads? {
            ByPathAppend(w.c, w.name, w.body, w.rest, path[q..], rest);
          }
        }
      }
      if rest == [] {
        assert path + rest == path;
      }
    }
  }

  /** A path of a name and what follows it, which the name does not begin with a slash. */
  predicate Headed(name: bytes, rest: bytes) {
    SLASH !in name && (rest == [] || (rest[0] == SLASH && name != []))
  }

  lemma HeadOf(name: bytes, rest: bytes)
    requires Headed(name, rest)
    ensures !Absolute(name + rest)
    ensures var q := NextSlash(name + rest, 0); (name + rest)[..q] == name && (name + rest)[q..] == rest
  {
    NextComponent(name, rest, 0);
    assert (name + rest)[..|name|] == name && (name + rest)[|name|..] == rest;
    if name != [] {
      assert (name + rest)[0] == name[0];
    }
  }

  /** An alias in front of a path is as good as its value, and there is an answer only if there is one. */
  lemma AliasStands(top: Items, t: bytes, name: bytes, rest: bytes, seen: set<bytes>)
    requires top.Node? && Headed(name, rest)
    ensures var v := AliasValue(top, t, name);
      && (v.None? ==> Follow(top, t, name + rest, seen) == Ends(-ERR_BADPATH))
      && (v.Some? && name in seen ==> Follow(top, t, name + rest, seen) == Ends(-ASTRAY))
      && (v.Some? && name !in seen && (v.value != [] || rest == []) ==>
           Follow(top, t, name + rest, seen) == Follow(top, t, v.value + rest, seen + {name}))
  {
    hide ByPath, PropByName, CString, Unseen;
    HeadOf(name, rest);
    var v := AliasValue(top, t, name);
    if v.Some? && name !in seen && (v.value != [] || rest == []) {
      FollowAppend(top, t, v.value, rest, seen + {name});
    }
  }

  /** An alias of an absolute path: the path with the alias leads where the path with its value in its place leads. */
  lemma AliasOfPath(top: Items, t: bytes, name: bytes, rest: bytes)
    requires top.Node? && Headed(name, rest)
    requires AliasValue(top, t, name).Some? ==> Absolute(AliasValue(top, t, name).value)
    ensures var v := AliasValue(top, t, name);
      && (v.Some? ==> Follow(top, t, name + rest, {}) == Straight(ByPath(Hole, top.name, top.body, top.rest, v.value + rest)))
      && (Follow(top, t, name + rest, {}) == Ends(-ERR_BADPATH) <==> v.None?)
  {
    hide ByPath, AliasValue;
    AliasStands(top, t, name, rest, {});
  }

  /** `next` is `path` with the alias it begins with replaced by its value. */
  predicate Link(top: Items, t: bytes, name: bytes, rest: bytes, path: bytes, next: bytes)
    requires top.Node?
  {
    var v := AliasValue(top, t, name);
    && Headed(name, rest) && path == name + rest
    && v.Some? && (v.value != [] || rest == []) && next == v.value + rest
  }

  /** In each path of the chain an alias was replaced by its value; the last path has none. */
  ghost predicate Chain(top: Items, t: bytes, names: seq<bytes>, rests: seq<bytes>, paths: seq<bytes>)
    requires top.Node?
  {
    && |rests| == |names| && |paths| == |names| + 1 && Absolute(paths[|names|])
    && forall i :: 0 <= i < |names| ==> Link(top, t, names[i], rests[i], paths[i], paths[i + 1])
  }

  /** A chain of different aliases leads where its last path leads. */
  lemma {:induction false} AliasChain(top: Items, t: bytes, names: seq<bytes>, rests: seq<bytes>, paths: seq<bytes>, seen: set<bytes>)
    requires top.Node? && Chain(top, t, names, rests, paths)
    requires forall i :: 0 <= i < |names| ==> names[i] !in seen && names[i] !in names[..i]
    ensures Follow(top, t, paths[0], seen) == Straight(ByPath(Hole, top.name, top.body, top.rest, paths[|names|]))
    decreases |names|
  {
    hide ByPath, AliasValue, Headed, Follow;
    if names == [] {
      FollowAbsolute(top, t, paths[0], seen);
    } else {
      assert names[0] !in seen && Link(top, t, names[0], rests[0], paths[0], paths[1]);
      AliasStands(top, t, names[0], rests[0], seen);
      var ns, rs, ps := names[1..], rests[1..], paths[1..];
      forall i | 0 <= i < |ns|
        ensures ns[i] !in seen + {names[0]} && ns[i] !in ns[..i]
      {
        assert ns[i] == names[i + 1] && names[i + 1] !in names[..i + 1];
        assert names[0] in names[..i + 1];
        assert forall x :: x in ns[..i] ==> x in names[..i + 1];
      }
      forall i | 0 <= i < |ns|
        ensures Link(top, t, ns[i], rs[i], ps[i], ps[i + 1])
      {
        assert Link(top, t, names[i + 1], rests[i + 1], paths[i + 1], paths[i + 2]);
      }
      AliasChain(top, t, ns, rs, ps, seen + {names[0]});
    }
  }

  lemma FollowAbsolute(top: Items, t: bytes, path: bytes, seen: set<bytes>)
    requires top.Node? && Absolute(path)
    ensures Follow(top, t, path, seen) == Straight(ByPath(Hole, top.name, top.body, top.rest, path))
  {
  }

  /** The alias "a" that stands for "a", `t` having its name at `off`. */
  lemma AliasOfItself(t: bytes, off: u32)
    requires Str(t, off) == Some([0x61])
    ensures var top := Node([], Node(ALIASES[1..], Flat(Prop(off, [0x61, 0]), Done), Done), Done);
            Follow(top, t, [0x61], {}) == Ends(-ASTRAY)
  {
    hide Str;
    var a: bytes := [0x61];
    var p := Flat(Prop(off, [0x61, 0]), Done);
    var top := Node([], Node(ALIASES[1..], p, Done), Done);
    assert FindNul([0x61, 0], 0) == 1 && CString([0x61, 0]) == a;
    assert NextSlash(a, 0) == 1 && a[..1] == a;
    AliasesAt(p);
    assert PropByName(p, t, a) == PropThere(Hole, off, [0x61, 0], Done);
    assert Follow(top, t, a, {} + {a}) == Ends(-ASTRAY);
  }

  lemma AliasesAt(p: Items)
    ensures ByPath(Hole, [], Node(ALIASES[1..], p, Done), Done, ALIASES) == There(Inside([], Hole, Done), ALIASES[1..], p, Done)
  {
    hide ByPath;
    var name := ALIASES[1..];
    assert Plain(name) && Matches(name, name) && ALIASES == [SLASH] + (name + []);
    PathStep(Hole, [], Node(name, p, Done), Done, name, []);
    ByPathHere(Inside([], Hole, Done), name, p, Done);
  }
}
