/**
 What merging an overlay means, seen by looking up properties and children: the overlay's
 properties win, children are united, and everything else stays.
 */
module Merging {
  import opened Options
  import opened Bytes
  import opened Walk
  import opened Meaning

  /** The last value that the properties in front of the first child give to a name. */
  function LastAttr(ov: Tree, name: bytes): Option<bytes> {
    match ov
    case Attr(n, v, r) =>
      var later := LastAttr(r, name);
      if later.Some? then later else if n == name then Some(v) else None
    case _ => None
  }

  lemma {:induction false} GetReplaced(f: Tree, n: bytes, v: bytes, name: bytes)
    requires GetAttr(f, n).Some?
    ensures GetAttr(ReplaceAttr(f, n, v), name) == if name == n then Some(v) else GetAttr(f, name)
    decreases f
  {
    if f.Attr? && f.name != n {
      GetReplaced(f.rest, n, v, name);
    }
  }

  lemma {:induction false} GetAfterSets(f: Tree, ov: Tree, name: bytes)
    ensures GetAttr(SetAttrs(f, ov), name) == if LastAttr(ov, name).Some? then LastAttr(ov, name) else GetAttr(f, name)
    decreases ov
  {
    match ov
    case Attr(n, v, r) =>
      GetAfterSets(SetAttr(f, n, v), r, name);
      if GetAttr(f, n).Some? {
        GetReplaced(f, n, v, name);
      }
    case _ =>
  }

  // ---------- Properties ----------

  lemma {:induction false} AttrsBesideChild(f: Tree, n: bytes, body: Tree, name: bytes)
    ensures GetAttr(ReplaceChild(f, n, body), name) == GetAttr(f, name)
    ensures GetAttr(InsertChild(f, n, body), name) == GetAttr(f, name)
    decreases f
  {
    if f.Attr? {
      AttrsBesideChild(f.rest, n, body, name);
    }
  }

  lemma {:induction false} AttrsBesideChildren(f: Tree, ov: Tree, name: bytes)
    ensures GetAttr(MergeChildren(f, ov), name) == GetAttr(f, name)
    decreases ov
  {
    hide Merge, GetAttr, ReplaceChild, InsertChild, GetChild;
    match ov
    case Nil =>
    case Attr(_, _, r) => AttrsBesideChildren(f, r, name);
    case Sub(n, b, r) =>
      AttrsBesideChildren(MergeChild(f, n, b), r, name);
      var child := GetChild(f, n);
      AttrsBesideChild(f, n, Merge(if child.Some? then child.value else Nil, b), name);
  }

  /** The overlay's properties win; a name it does not set keeps its value. */
  lemma MergedAttr(f: Tree, ov: Tree, name: bytes)
    ensures GetAttr(Merge(f, ov), name) == if LastAttr(ov, name).Some? then LastAttr(ov, name) else GetAttr(f, name)
  {
    hide GetAttr, LastAttr, SetAttrs, MergeChildren;
    AttrsBesideChildren(SetAttrs(f, ov), ov, name);
    GetAfterSets(f, ov, name);
  }

  /** Setting, extending and removing one property. The value that was there comes first. */
  lemma {:induction false} OneAttr(f: Tree, n: bytes, v: bytes, name: bytes)
    ensures GetAttr(SetAttr(f, n, v), name) == if name == n then Some(v) else GetAttr(f, name)
    ensures GetAttr(AppendAttr(f, n, v), name) ==
              if name != n then GetAttr(f, name) else if GetAttr(f, n).Some? then Some(GetAttr(f, n).value + v) else Some(v)
  {
    var old_ := GetAttr(f, n);
    if old_.Some? {
      GetReplaced(f, n, v, name);
      GetReplaced(f, n, old_.value + v, name);
    }
  }

  /** Removing takes the first property of the name away and leaves the others, a second one of the name included. */
  lemma {:induction false} OneRemoved(f: Tree, n: bytes) returns (front: Tree, val: bytes, back: Tree)
    requires GetAttr(f, n).Some?
    ensures GetAttr(front, n).None? && Order(front) == [] && GetAttr(f, n) == Some(val)
    ensures f == Attached(front, Attr(n, val, back)) && RemoveAttr(f, n) == Attached(front, back)
    decreases f
  {
    if f.name == n {
      front, val, back := Nil, f.val, f.rest;
    } else {
      front, val, back := OneRemoved(f.rest, n);
      front := Attr(f.name, f.val, front);
    }
  }

  /** One behind the other. */
  function Attached(x: Tree, y: Tree): Tree {
    match x
    case Nil => y
    case Attr(n, v, r) => Attr(n, v, Attached(r, y))
    case Sub(n, b, r) => Sub(n, b, Attached(r, y))
  }

  // ---------- Children ----------

  /** The names of the children, in order. */
  function Order(f: Tree): seq<bytes> {
    match f
    case Nil => []
    case Attr(_, _, r) => Order(r)
    case Sub(n, _, r) => [n] + Order(r)
  }

  /** The content of the first child of exactly this name, empty when there is none. */
  function Own(f: Tree, name: bytes): Tree {
    match f
    case Nil => Nil
    case Attr(_, _, r) => Own(r, name)
    case Sub(n, b, r) => if n == name then b else Own(r, name)
  }

  /** One of the names answers to `name`. */
  predicate Answered(names: seq<bytes>, name: bytes) {
    exists i :: 0 <= i < |names| && Matches(names[i], name)
  }

  /** The first of the names that answers to `name`, if one does, is `name` itself. */
  predicate Leads(names: seq<bytes>, name: bytes) {
    names == [] || (if Matches(names[0], name) then names[0] == name else Leads(names[1..], name))
  }

  /** The first of the names that answers. */
  function FirstAnswer(names: seq<bytes>, name: bytes): Option<bytes> {
    if names == [] then None else if Matches(names[0], name) then Some(names[0]) else FirstAnswer(names[1..], name)
  }

  /** A child that is not the first to answer is not replaced. */
  lemma {:induction false} NotReplaced(f: Tree, n: bytes, body: Tree, q: bytes)
    requires FirstAnswer(Order(f), n) != Some(q)
    ensures Own(ReplaceChild(f, n, body), q) == Own(f, q)
    decreases f
  {
    hide Matches;
    match f
    case Nil =>
    case Attr(_, _, r) => NotReplaced(r, n, body, q);
    case Sub(m, _, r) =>
      assert Order(f) == [m] + Order(r) && Order(f)[1..] == Order(r);
      if !Matches(m, n) {
        NotReplaced(r, n, body, q);
      }
  }

  lemma MatchesSelf(q: bytes)
    ensures Matches(q, q)
  {
  }

  lemma {:induction false} OrderOfReplaced(f: Tree, n: bytes, v: bytes)
    ensures Order(ReplaceAttr(f, n, v)) == Order(f)
    ensures forall q :: Own(ReplaceAttr(f, n, v), q) == Own(f, q)
    decreases f
  {
    if f.Attr? {
      OrderOfReplaced(f.rest, n, v);
    }
  }

  /** Setting properties leaves the children alone. */
  lemma {:induction false} ChildrenBesideSets(f: Tree, ov: Tree)
    ensures Order(SetAttrs(f, ov)) == Order(f)
    ensures forall q :: Own(SetAttrs(f, ov), q) == Own(f, q)
    decreases ov
  {
    match ov
    case Attr(n, v, r) =>
      ChildrenBesideSets(SetAttr(f, n, v), r);
      OrderOfReplaced(f, n, v);
    case _ =>
  }

  lemma AnsweredCons(n: bytes, names: seq<bytes>, q: bytes)
    ensures Answered([n] + names, q) <==> Matches(n, q) || Answered(names, q)
  {
    hide Matches;
    var all := [n] + names;
    if Matches(n, q) {
      assert Matches(all[0], q);
    }
    if Answered(names, q) {
      var i :| 0 <= i < |names| && Matches(names[i], q);
      assert Matches(all[i + 1], q);
    }
    if Answered(all, q) && !Matches(n, q) {
      var i :| 0 <= i < |all| && Matches(all[i], q);
      assert Matches(names[i - 1], q);
    }
  }

  lemma {:induction false} ChildAnswered(f: Tree, q: bytes)
    ensures GetChild(f, q).Some? <==> Answered(Order(f), q)
    decreases f
  {
    hide Matches;
    match f
    case Nil =>
    case Attr(_, _, r) => ChildAnswered(r, q);
    case Sub(n, _, r) =>
      ChildAnswered(r, q);
      AnsweredCons(n, Order(r), q);
  }

  lemma {:induction false} OrderOfReplacement(f: Tree, n: bytes, body: Tree)
    ensures Order(ReplaceChild(f, n, body)) == Order(f)
    decreases f
  {
    match f
    case Nil =>
    case Attr(_, _, r) => OrderOfReplacement(r, n, body);
    case Sub(_, _, r) => OrderOfReplacement(r, n, body);
  }

  /** A new child comes in front of the others. */
  lemma {:induction false} InsertedFirst(f: Tree, n: bytes, body: Tree)
    ensures Order(InsertChild(f, n, body)) == [n] + Order(f)
    ensures forall q :: Own(InsertChild(f, n, body), q) == if q == n then body else Own(f, q)
    decreases f
  {
    if f.Attr? {
      InsertedFirst(f.rest, n, body);
    }
  }

  /** The names after `n` was merged. */
  function OrderWith(names: seq<bytes>, n: bytes): seq<bytes> {
    if Answered(names, n) then names else [n] + names
  }

  lemma OrderOfOne(f: Tree, n: bytes, b: Tree)
    ensures Order(MergeChild(f, n, b)) == OrderWith(Order(f), n)
  {
    hide Merge, Answered, Order;
    ChildAnswered(f, n);
    var child := GetChild(f, n);
    OrderOfReplacement(f, n, Merge(if child.Some? then child.value else Nil, b));
    InsertedFirst(f, n, Merge(Nil, b));
  }

  /** A child of the name is there afterwards exactly if it was there before or nothing answered to the name. */
  lemma ChildTaken(f: Tree, n: bytes, b: Tree)
    ensures n in Order(MergeChild(f, n, b)) <==> n in Order(f) || GetChild(f, n).None?
  {
    hide Merge, Answered, MergeChild;
    ChildAnswered(f, n);
    OrderOfOne(f, n, b);
  }

  /** Each name, when its turn comes, is there already or answered by none. */
  predicate Free(names: seq<bytes>, kids: seq<bytes>)
    decreases |kids|
  {
    kids == [] ||
    (&& (kids[0] in names || !Answered(names, kids[0]))
     && Free(OrderWith(names, kids[0]), kids[1..]))
  }

  /** The names after all of `kids` were merged. */
  function OrderAfter(names: seq<bytes>, kids: seq<bytes>): seq<bytes>
    decreases |kids|
  {
    if kids == [] then names else OrderAfter(OrderWith(names, kids[0]), kids[1..])
  }

  lemma {:induction false} OrderOfMany(f: Tree, ov: Tree)
    ensures Order(MergeChildren(f, ov)) == OrderAfter(Order(f), Order(ov))
    decreases ov
  {
    hide Merge, MergeChild, OrderWith;
    match ov
    case Nil =>
    case Attr(_, _, r) => OrderOfMany(f, r);
    case Sub(n, b, r) =>
      OrderOfOne(f, n, b);
      OrderOfMany(MergeChild(f, n, b), r);
      assert Order(ov) == [n] + Order(r) && Order(ov)[1..] == Order(r);
  }

  /** Merging takes no name away and adds none but the overlay's; a name that is taken stays away. */
  lemma {:induction false} OrderBounds(names: seq<bytes>, kids: seq<bytes>)
    ensures forall x :: x in names ==> x in OrderAfter(names, kids)
    ensures forall x :: x in OrderAfter(names, kids) ==> x in names || x in kids
    ensures forall x :: x !in names && Answered(names, x) ==> x !in OrderAfter(names, kids)
    decreases |kids|
  {
    hide Matches;
    if kids != [] {
      var n := kids[0];
      var more := OrderWith(names, n);
      OrderBounds(more, kids[1..]);
      forall x | x in OrderAfter(names, kids)
        ensures x in names || x in kids
      {
        assert x in more || x in kids[1..];
      }
      forall x | x !in names && Answered(names, x)
        ensures x !in more && Answered(more, x)
      {
        AnsweredCons(n, names, x);
      }
    }
  }

  lemma {:induction false} FreeExact(names: seq<bytes>, kids: seq<bytes>)
    ensures (forall x :: x in kids ==> x in OrderAfter(names, kids)) <==> Free(names, kids)
    decreases |kids|
  {
    hide Answered;
    if kids != [] {
      var n := kids[0];
      var more := OrderWith(names, n);
      OrderBounds(names, kids);
      OrderBounds(more, kids[1..]);
      FreeExact(more, kids[1..]);
      assert kids == [n] + kids[1..];
      if n in names || !Answered(names, n) {
        assert n in more;
      } else {
        assert n in kids && n !in OrderAfter(names, kids);
      }
    }
  }

  /** The merged node has the children of both, and no others, exactly when every name of the overlay is free. */
  lemma MergedNames(f: Tree, ov: Tree)
    ensures (forall x :: x in Order(Merge(f, ov)) <==> x in Order(f) || x in Order(ov)) <==> Free(Order(f), Order(ov))
  {
    hide SetAttrs, MergeChildren, Free, OrderAfter;
    ChildrenBesideSets(f, ov);
    OrderOfMany(SetAttrs(f, ov), ov);
    OrderBounds(Order(f), Order(ov));
    FreeExact(Order(f), Order(ov));
  }

  // ---------- What the children become ----------

  /** Merges every child of the overlay called `q` into `x`. */
  function Gather(x: Tree, ov: Tree, q: bytes): Tree
    decreases ov
  {
    match ov
    case Nil => x
    case Attr(_, _, r) => Gather(x, r, q)
    case Sub(n, b, r) => Gather(if n == q then Merge(x, b) else x, r, q)
  }

  /** The names lead to themselves, one after the other. */
  predicate Direct(names: seq<bytes>, kids: seq<bytes>)
    decreases |kids|
  {
    kids == [] || (Leads(names, kids[0]) && Direct(OrderWith(names, kids[0]), kids[1..]))
  }

  /** When it is `q`'s turn the name leads to itself, and at no other turn is `q` the first to answer. */
  predicate Undisturbed(names: seq<bytes>, kids: seq<bytes>, q: bytes)
    decreases |kids|
  {
    kids == [] ||
    (&& (if kids[0] == q then Leads(names, q) else FirstAnswer(names, kids[0]) != Some(q))
     && Undisturbed(OrderWith(names, kids[0]), kids[1..], q))
  }

  lemma {:induction false} LeadsIs(names: seq<bytes>, n: bytes)
    ensures Leads(names, n) <==> FirstAnswer(names, n) in {None, Some(n)}
    ensures FirstAnswer(names, n).Some? <==> Answered(names, n)
    decreases |names|
  {
    hide Matches;
    if names != [] {
      LeadsIs(names[1..], n);
      AnsweredCons(names[0], names[1..], n);
      assert [names[0]] + names[1..] == names;
    }
  }

  /** Names that lead to themselves disturb none. */
  lemma {:induction false} DirectLeaves(names: seq<bytes>, kids: seq<bytes>, q: bytes)
    requires Direct(names, kids)
    ensures Undisturbed(names, kids, q)
    decreases |kids|
  {
    hide Leads, FirstAnswer, OrderWith;
    if kids != [] {
      LeadsIs(names, kids[0]);
      DirectLeaves(OrderWith(names, kids[0]), kids[1..], q);
    }
  }

  lemma {:induction false} SomeDisturbed(names: seq<bytes>, kids: seq<bytes>) returns (q: bytes)
    requires !Direct(names, kids)
    ensures !Undisturbed(names, kids, q)
    decreases |kids|
  {
    hide Leads, FirstAnswer, OrderWith;
    q := kids[0];
    if Leads(names, q) {
      q := SomeDisturbed(OrderWith(names, q), kids[1..]);
    }
  }

  /** Replacing the first child that answers changes the child of that name exactly if it is the one. */
  lemma {:induction false} ReplacedOwn(f: Tree, n: bytes, body: Tree, q: bytes)
    requires Answered(Order(f), n)
    ensures Leads(Order(f), n) ==> GetChild(f, n) == Some(Own(f, n))
    ensures Leads(Order(f), n) ==> Own(ReplaceChild(f, n, body), q) == if q == n then body else Own(f, q)
    ensures !Leads(Order(f), n) ==> Own(ReplaceChild(f, n, body), n) == Own(f, n)
    decreases f
  {
    hide Matches;
    match f
    case Nil =>
    case Attr(_, _, r) => ReplacedOwn(r, n, body, q);
    case Sub(m, b, r) =>
      assert Order(f) == [m] + Order(r) && Order(f)[1..] == Order(r);
      AnsweredCons(m, Order(r), n);
      MatchesSelf(n);
      if !Matches(m, n) {
        ReplacedOwn(r, n, body, q);
      }
  }

  lemma {:induction false} Nobody(f: Tree, n: bytes)
    requires !Answered(Order(f), n)
    ensures Own(f, n) == Nil && Leads(Order(f), n)
    decreases f
  {
    hide Matches;
    match f
    case Nil =>
    case Attr(_, _, r) => Nobody(r, n);
    case Sub(m, b, r) =>
      assert Order(f) == [m] + Order(r) && Order(f)[1..] == Order(r);
      AnsweredCons(m, Order(r), n);
      MatchesSelf(n);
      Nobody(r, n);
  }

  /** One child merged, its name leading to itself or not. */
  lemma OneMerged(f: Tree, n: bytes, b: Tree, q: bytes)
    ensures Leads(Order(f), n) ==> Own(MergeChild(f, n, b), q) == if q == n then Merge(Own(f, n), b) else Own(f, q)
    ensures !Leads(Order(f), n) ==> Own(MergeChild(f, n, b), n) == Own(f, n)
  {
    hide Merge, ReplaceChild, InsertChild, Answered, Leads, Order, Own;
    ChildAnswered(f, n);
    var child := GetChild(f, n);
    if child.Some? {
      ReplacedOwn(f, n, Merge(child.value, b), q);
    } else {
      Nobody(f, n);
      InsertedFirst(f, n, Merge(Nil, b));
    }
  }

  /** A child merged under another name: it changes `q` exactly if `q` is the first to answer. */
  lemma OtherMerged(f: Tree, n: bytes, b: Tree, q: bytes)
    requires n != q
    ensures Own(MergeChild(f, n, b), q) == if FirstAnswer(Order(f), n) == Some(q) then Merge(Own(f, q), b) else Own(f, q)
  {
    hide Merge, ReplaceChild, InsertChild, Answered, FirstAnswer, Order, Own;
    ChildAnswered(f, n);
    LeadsIs(Order(f), n);
    var child := GetChild(f, n);
    if child.None? {
      InsertedFirst(f, n, Merge(Nil, b));
    } else if FirstAnswer(Order(f), n) == Some(q) {
      CapturedBy(f, n, Merge(child.value, b), q);
    } else {
      NotReplaced(f, n, Merge(child.value, b), q);
    }
  }

  lemma {:induction false} CapturedBy(f: Tree, n: bytes, body: Tree, q: bytes)
    requires FirstAnswer(Order(f), n) == Some(q)
    ensures GetChild(f, n) == Some(Own(f, q)) && Own(ReplaceChild(f, n, body), q) == body
    decreases f
  {
    hide Matches;
    match f
    case Nil =>
    case Attr(_, _, r) => CapturedBy(r, n, body, q);
    case Sub(m, _, r) =>
      assert Order(f) == [m] + Order(r) && Order(f)[1..] == Order(r);
      if !Matches(m, n) {
        CapturedBy(r, n, body, q);
        AnswerMatches(Order(r), n);
      }
  }

  lemma {:induction false} AnswerMatches(names: seq<bytes>, n: bytes)
    ensures FirstAnswer(names, n).Some? ==> Matches(FirstAnswer(names, n).value, n)
    decreases |names|
  {
    hide Matches;
    if names != [] && !Matches(names[0], n) {
      AnswerMatches(names[1..], n);
    }
  }

  /** The child of the name receives what the overlay has for it, whatever that is, exactly when its name leads to itself. */
  lemma OneMergedExact(f: Tree, n: bytes)
    ensures (forall b :: Own(MergeChild(f, n, b), n) == Merge(Own(f, n), b)) <==> Leads(Order(f), n)
  {
    hide Merge, MergeChild, Leads, Order, Own;
    if Leads(Order(f), n) {
      forall b
        ensures Own(MergeChild(f, n, b), n) == Merge(Own(f, n), b)
      {
        OneMerged(f, n, b, n);
      }
    } else {
      var b := Telling(Own(f, n));
      OneMerged(f, n, b, n);
      TellingTells(Own(f, n));
    }
  }

  /** A property that the tree has not got, or not with this value. */
  function Telling(x: Tree): Tree {
    Attr([], if GetAttr(x, []) == Some([]) then [0] else [], Nil)
  }

  lemma TellingTells(x: Tree)
    ensures GetAttr(Merge(x, Telling(x)), []) != GetAttr(x, [])
  {
    hide Merge;
    MergedAttr(x, Telling(x), []);
    LastOfOne([], if GetAttr(x, []) == Some([]) then [0] else []);
  }

  lemma LastOfOne(n: bytes, v: bytes)
    ensures LastAttr(Attr(n, v, Nil), n) == Some(v)
  {
    assert LastAttr(Nil, n) == None;
  }

  lemma {:induction false} ManyMerged(f: Tree, ov: Tree, q: bytes)
    requires Undisturbed(Order(f), Order(ov), q)
    ensures Own(MergeChildren(f, ov), q) == Gather(Own(f, q), ov, q)
    decreases ov
  {
    hide Merge, MergeChild, Leads, FirstAnswer, OrderWith, Own;
    match ov
    case Nil =>
    case Attr(_, _, r) => ManyMerged(f, r, q);
    case Sub(n, b, r) =>
      assert Order(ov) == [n] + Order(r) && Order(ov)[1..] == Order(r);
      if n == q {
        OneMerged(f, n, b, q);
      } else {
        OtherMerged(f, n, b, q);
      }
      OrderOfOne(f, n, b);
      ManyMerged(MergeChild(f, n, b), r, q);
  }

  /** Children of these names, without content. */
  function Blank(kids: seq<bytes>): Tree {
    if kids == [] then Nil else Sub(kids[0], Nil, Blank(kids[1..]))
  }

  lemma MergeNothing(f: Tree)
    ensures Merge(f, Nil) == f
  {
  }

  lemma {:induction false} BlankOrder(kids: seq<bytes>)
    ensures Order(Blank(kids)) == kids
    decreases |kids|
  {
    if kids != [] {
      BlankOrder(kids[1..]);
    }
  }

  lemma {:induction false} ReplacedSame(f: Tree, n: bytes)
    requires GetChild(f, n).Some?
    ensures ReplaceChild(f, n, GetChild(f, n).value) == f
    decreases f
  {
    hide Matches;
    match f
    case Nil =>
    case Attr(_, _, r) => ReplacedSame(r, n);
    case Sub(m, _, r) =>
      if !Matches(m, n) {
        ReplacedSame(r, n);
      }
  }

  lemma BlankOne(f: Tree, n: bytes, q: bytes)
    ensures Own(MergeChild(f, n, Nil), q) == Own(f, q) || (q == n && GetChild(f, n).None? && Own(MergeChild(f, n, Nil), q) == Nil)
    ensures GetChild(f, n).None? ==> Own(f, n) == Nil
  {
    hide Merge, ReplaceChild, InsertChild, Order, Own, Answered;
    ChildAnswered(f, n);
    MergeNothing(Nil);
    if GetChild(f, n).Some? {
      MergeNothing(GetChild(f, n).value);
      ReplacedSame(f, n);
    } else {
      Nobody(f, n);
      InsertedFirst(f, n, Nil);
    }
  }

  lemma {:induction false} BlankMany(f: Tree, kids: seq<bytes>, q: bytes)
    ensures Own(MergeChildren(f, Blank(kids)), q) == Own(f, q)
    ensures forall x :: Gather(x, Blank(kids), q) == x
    decreases |kids|
  {
    hide Merge, MergeChild, Own;
    if kids != [] {
      BlankOne(f, kids[0], q);
      BlankMany(MergeChild(f, kids[0], Nil), kids[1..], q);
      forall x
        ensures Gather(x, Blank(kids), q) == x
      {
        MergeNothing(x);
      }
    }
  }

  /** Where `q` is disturbed, some content of the overlay's children goes astray. */
  lemma {:induction false} Misled(f: Tree, kids: seq<bytes>, q: bytes) returns (ov: Tree)
    requires !Undisturbed(Order(f), kids, q)
    ensures Order(ov) == kids && ov.Sub? && Own(MergeChildren(f, ov), q) != Gather(Own(f, q), ov, q)
    decreases |kids|
  {
    hide Merge, MergeChild, Leads, FirstAnswer, OrderWith, Own;
    var n, rest := kids[0], kids[1..];
    if (n == q && !Leads(Order(f), n)) || (n != q && FirstAnswer(Order(f), n) == Some(q)) {
      var b := Telling(Own(f, q));
      ov := Sub(n, b, Blank(rest));
      BlankOrder(rest);
      if n == q {
        OneMerged(f, n, b, n);
      } else {
        OtherMerged(f, n, b, q);
      }
      BlankMany(MergeChild(f, n, b), rest, q);
      TellingTells(Own(f, q));
    } else {
      OrderOfOne(f, n, Nil);
      var more := Misled(MergeChild(f, n, Nil), rest, q);
      ov := Sub(n, Nil, more);
      BlankOne(f, n, q);
      MergeNothing(Own(f, q));
    }
  }

  /**
   A child of the merged node is the base's child of that name with the overlay's merged into
   it, for every overlay with these names, exactly when no name disturbs it.
   */
  lemma MergedName(f: Tree, kids: seq<bytes>, q: bytes)
    ensures (forall ov :: Order(ov) == kids ==> Own(Merge(f, ov), q) == Gather(Own(f, q), ov, q)) <==> Undisturbed(Order(f), kids, q)
  {
    hide SetAttrs, MergeChildren, Undisturbed, Order, Own, Gather;
    if Undisturbed(Order(f), kids, q) {
      forall ov | Order(ov) == kids
        ensures Own(Merge(f, ov), q) == Gather(Own(f, q), ov, q)
      {
        ChildrenBesideSets(f, ov);
        ManyMerged(SetAttrs(f, ov), ov, q);
      }
    } else {
      var ov := Misled(f, kids, q);
      NoSets(f, ov);
      assert Own(Merge(f, ov), q) != Gather(Own(f, q), ov, q);
    }
  }

  /** The same for all children at once: exactly when every name leads to itself. */
  lemma MergedChild(f: Tree, kids: seq<bytes>)
    ensures (forall ov, q :: Order(ov) == kids ==> Own(Merge(f, ov), q) == Gather(Own(f, q), ov, q)) <==> Direct(Order(f), kids)
  {
    hide Merge, Undisturbed, Direct, Order, Own, Gather;
    if Direct(Order(f), kids) {
      forall ov, q | Order(ov) == kids
        ensures Own(Merge(f, ov), q) == Gather(Own(f, q), ov, q)
      {
        DirectLeaves(Order(f), kids, q);
        MergedName(f, kids, q);
      }
    } else {
      var q := SomeDisturbed(Order(f), kids);
      MergedName(f, kids, q);
      assert exists ov :: Order(ov) == kids && Own(Merge(f, ov), q) != Gather(Own(f, q), ov, q);
    }
  }

  lemma NoSets(f: Tree, ov: Tree)
    requires ov.Sub?
    ensures SetAttrs(f, ov) == f
  {
  }

  // ---------- Paths ----------

  predicate AtMostOnce(kids: seq<bytes>, q: bytes)
    decreases |kids|
  {
    kids == [] || (if kids[0] == q then q !in kids[1..] else AtMostOnce(kids[1..], q))
  }

  lemma {:induction false} GatherNone(x: Tree, ov: Tree, q: bytes)
    requires q !in Order(ov)
    ensures Gather(x, ov, q) == x && Own(ov, q) == Nil
    decreases ov
  {
    hide Merge;
    match ov
    case Nil =>
    case Attr(_, _, r) => GatherNone(x, r, q);
    case Sub(n, b, r) =>
      assert Order(ov) == [n] + Order(r) && Order(ov)[0] == n;
      assert forall i :: 0 <= i < |Order(r)| ==> Order(r)[i] == Order(ov)[i + 1];
      GatherNone(x, r, q);
  }

  lemma {:induction false} GatherOne(x: Tree, ov: Tree, q: bytes)
    requires AtMostOnce(Order(ov), q)
    ensures Gather(x, ov, q) == Merge(x, Own(ov, q))
    decreases ov
  {
    hide Merge;
    match ov
    case Nil => MergeNothing(x);
    case Attr(_, _, r) => GatherOne(x, r, q);
    case Sub(n, b, r) =>
      assert Order(ov) == [n] + Order(r) && Order(ov)[0] == n && Order(ov)[1..] == Order(r);
      if n == q {
        GatherNone(Merge(x, b), r, q);
      } else {
        GatherOne(x, r, q);
      }
  }

  /** The content of the node at a path, empty when there is none. */
  function At(f: Tree, path: seq<bytes>): Tree
    decreases |path|
  {
    if path == [] then f else At(Own(f, path[0]), path[1..])
  }

  /** No name disturbs those on the path, and the overlay has each of these at most once. */
  predicate Clear(f: Tree, ov: Tree, path: seq<bytes>)
    decreases |path|
  {
    path == [] ||
    (&& Undisturbed(Order(f), Order(ov), path[0]) && AtMostOnce(Order(ov), path[0])
     && Clear(Own(f, path[0]), Own(ov, path[0]), path[1..]))
  }

  /** At every path the merged tree is the merge of what both have there. */
  lemma {:induction false} MergedAt(f: Tree, ov: Tree, path: seq<bytes>)
    requires Clear(f, ov, path)
    ensures At(Merge(f, ov), path) == Merge(At(f, path), At(ov, path))
    decreases |path|
  {
    hide Merge, Order, Own, Undisturbed, AtMostOnce;
    if path != [] {
      MergedName(f, Order(ov), path[0]);
      assert Own(Merge(f, ov), path[0]) == Gather(Own(f, path[0]), ov, path[0]);
      GatherOne(Own(f, path[0]), ov, path[0]);
      MergedAt(Own(f, path[0]), Own(ov, path[0]), path[1..]);
    }
  }

  /**
   The value of a property at a path after the merge: the overlay's where it sets one, the
   base's everywhere else.
   */
  lemma MergedValue(f: Tree, ov: Tree, path: seq<bytes>, name: bytes)
    requires Clear(f, ov, path)
    ensures GetAttr(At(Merge(f, ov), path), name) ==
              if LastAttr(At(ov, path), name).Some? then LastAttr(At(ov, path), name) else GetAttr(At(f, path), name)
  {
    hide Merge, At;
    MergedAt(f, ov, path);
    MergedAttr(At(f, path), At(ov, path), name);
  }

  /** An overlay's "a" lands in the base's "a@1" instead of becoming a child. */
  lemma StemCaptures()
    ensures var a, a1, p := [0x61], [0x61, AT, 0x31], [0x70];
            var f, ov := Sub(a1, Nil, Nil), Sub(a, Attr(p, [1], Nil), Nil);
      && Order(Merge(f, ov)) == [a1] && Order(ov) == [a]
      && GetAttr(Own(Merge(f, ov), a1), p) == Some([1]) && !Free(Order(f), Order(ov)) && !Direct(Order(f), Order(ov))
  {
    var a, a1, p := [0x61], [0x61, AT, 0x31], [0x70];
    var f, ov := Sub(a1, Nil, Nil), Sub(a, Attr(p, [1], Nil), Nil);
    assert Matches(a1, a);
    var b := Attr(p, [1], Nil);
    assert Merge(Nil, b) == b;
    assert Merge(f, ov) == Sub(a1, b, Nil);
    assert Order(f) == [a1] && Order(ov) == [a] && |a1| != |a|;
    assert Matches(Order(f)[0], a);
    assert Answered(Order(f), a) && !Leads(Order(f), a);
  }
}
