/** libco's intrusive doubly linked lists. An item carries its own links and a pointer to the list it
    is in. `World` stands for all the lists and items in use, so that each operation can say what it
    leaves alone. `seqn` is auxiliary: the items of a list from head to tail. */
module IntrusiveList {
  import opened Common

  class Item {
    const expire: nat
    var prev: Item?
    var next: Item?
    var link: List?

    constructor (expire: nat)
      ensures this.expire == expire && prev == null && next == null && link == null
    {
      this.expire := expire;
      prev, next, link := null, null, null;
    }
  }

  function Before(s: seq<Item>, k: nat): Item?
    requires k < |s|
  {
    if k == 0 then null else s[k - 1]
  }

  function After(s: seq<Item>, k: nat): Item?
    requires k < |s|
  {
    if k == |s| - 1 then null else s[k + 1]
  }

  lemma {:induction false} DistinctWith(s: seq<Item>, x: Item)
    requires Distinct(s) && x !in s
    ensures Distinct(s + [x])
  {
  }

  lemma {:induction false} DistinctParts(s: seq<Item>, t: seq<Item>)
    requires Distinct(s + t)
    ensures forall k :: 0 <= k < |s| ==> s[k] !in t
  {
    forall k, j | 0 <= k < |s| && 0 <= j < |t| ensures s[k] != t[j] {
      assert (s + t)[k] == s[k] && (s + t)[|s| + j] == t[j];
    }
  }

  lemma {:induction false} DistinctNone()
    ensures Distinct<Item>([])
  {
  }

  lemma {:induction false} DistinctFrom(s: seq<Item>, k: nat)
    requires Distinct(s) && k < |s|
    ensures forall j :: 0 <= j < |s| && j != k ==> s[j] != s[k]
  {
  }

  lemma {:induction false} DistinctWithout(s: seq<Item>, k: nat)
    requires Distinct(s) && k < |s|
    ensures Distinct(s[..k] + s[k + 1..])
  {
  }

  /** Taking out position `k` changes only the neighbours of `s[k]`. */
  lemma {:induction false} NeighboursWithout(s: seq<Item>, k: nat, j: nat)
    requires k < |s| && j < |s| - 1
    ensures var t := s[..k] + s[k + 1..];
      var i := if j < k then j else j + 1;
      && t[j] == s[i]
      && Before(t, j) == (if i == k + 1 then Before(s, k) else Before(s, i))
      && After(t, j) == (if i + 1 == k then After(s, k) else After(s, i))
  {
  }

  /** Joining two sequences changes only the neighbours where they meet. */
  lemma {:induction false} NeighboursJoined(s: seq<Item>, t: seq<Item>, k: nat)
    requires k < |s| + |t| && t != []
    ensures if k < |s| then
      && (s + t)[k] == s[k] && Before(s + t, k) == Before(s, k)
      && After(s + t, k) == (if k == |s| - 1 then t[0] else After(s, k))
    else
      && (s + t)[k] == t[k - |s|] && After(s + t, k) == After(t, k - |s|)
      && Before(s + t, k) == (if k == |s| && s != [] then s[|s| - 1] else Before(t, k - |s|))
  {
  }

  class List {
    var head: Item?
    var tail: Item?
    ghost var seqn: seq<Item>

    constructor ()
      ensures head == null && tail == null && seqn == []
    {
      head, tail, seqn := null, null, [];
    }

    /** Ends and neighbours are as `seqn` says. */
    ghost predicate Linked()
      reads this, seqn
    {
      Ends() && Chained() && Distinct(seqn)
    }

    ghost predicate Ends()
      reads this
    {
      if seqn == [] then head == null && tail == null else head == seqn[0] && tail == seqn[|seqn| - 1]
    }

    ghost predicate Chained()
      reads this, seqn
    {
      && (forall k {:trigger Before(seqn, k)} :: 0 <= k < |seqn| ==> seqn[k].prev == Before(seqn, k))
      && (forall k {:trigger After(seqn, k)} :: 0 <= k < |seqn| ==> seqn[k].next == After(seqn, k))
    }

    ghost predicate Owns()
      reads this, seqn
    {
      forall k :: 0 <= k < |seqn| ==> seqn[k].link == this
    }

    /** `AddTail` of an item that is in no list. */
    method Append(ap: Item)
      requires Linked() && ap !in seqn
      modifies this, seqn, ap
      ensures Linked() && seqn == old(seqn) + [ap] && ap.link == this
      ensures forall k :: 0 <= k < old(|seqn|) ==> seqn[k].link == old(seqn[k].link)
    {
      hide Distinct;
      ghost var was := seqn;
      if tail != null {
        tail.next := ap;
        ap.next := null;
        ap.prev := tail;
        tail := ap;
      } else {
        head, tail := ap, ap;
        ap.next, ap.prev := null, null;
      }
      ap.link := this;
      seqn := seqn + [ap];
      DistinctWith(was, ap);
      if was != [] { DistinctFrom(was, |was| - 1); }
      assert Chained() by {
        forall k | 0 <= k < |seqn| ensures seqn[k].prev == Before(seqn, k) && seqn[k].next == After(seqn, k) {
          if k < |was| {
            assert seqn[k] == was[k] && Before(seqn, k) == Before(was, k);
            assert k < |was| - 1 ==> After(seqn, k) == After(was, k);
          }
        }
      }
    }

    /** `RemoveFromLink` of the item at position `k`. */
    method Remove(ap: Item, ghost k: nat)
      requires Linked() && k < |seqn| && ap == seqn[k]
      modifies this, seqn
      ensures Linked() && seqn == old(seqn)[..k] + old(seqn)[k + 1..]
      ensures ap.link == null && ap.prev == null && ap.next == null
      ensures forall j :: 0 <= j < old(|seqn|) && j != k ==> old(seqn[j]).link == old(seqn[j].link)
    {
      hide Distinct;
      ghost var was := seqn;
      assert ap.prev == Before(was, k) && ap.next == After(was, k);
      DistinctFrom(was, k);
      if ap == head {
        head := ap.next;
        if head != null {
          head.prev := null;
        }
      } else if ap.prev != null {
        ap.prev.next := ap.next;
      }
      if ap == tail {
        tail := ap.prev;
        if tail != null {
          tail.next := null;
        }
      } else {
        ap.next.prev := ap.prev;
      }
      ap.prev, ap.next := null, null;
      ap.link := null;
      seqn := seqn[..k] + seqn[k + 1..];
      DistinctWithout(was, k);
      if k > 0 { DistinctFrom(was, k - 1); }
      if k + 1 < |was| { DistinctFrom(was, k + 1); }
      assert Chained() by {
        forall j | 0 <= j < |seqn| ensures seqn[j].prev == Before(seqn, j) && seqn[j].next == After(seqn, j) {
          NeighboursWithout(was, k, j);
        }
      }
    }

    /** `PopHead` of a list that is not empty. */
    method Pop()
      requires Linked() && seqn != []
      modifies this, seqn
      ensures Linked() && seqn == old(seqn[1..]) && old(seqn[0]).link == null
      ensures forall j :: 0 < j < old(|seqn|) ==> old(seqn[j]).link == old(seqn[j].link)
    {
      hide Distinct;
      ghost var was := seqn;
      DistinctFrom(was, 0);
      if |was| > 1 { DistinctFrom(was, 1); }
      DistinctWithout(was, 0);
      assert was[..0] + was[0 + 1..] == was[1..];
      var lp := head;
      assert lp.next == After(was, 0);
      if head == tail {
        head, tail := null, null;
      } else {
        head := head.next;
      }
      lp.prev, lp.next := null, null;
      lp.link := null;
      if head != null {
        head.prev := null;
      }
      seqn := seqn[1..];
      assert Chained() by {
        forall j | 0 <= j < |seqn| ensures seqn[j].prev == Before(seqn, j) && seqn[j].next == After(seqn, j) {
          assert seqn[j] == was[j + 1];
          assert j != 0 ==> Before(seqn, j) == Before(was, j + 1);
          assert After(seqn, j) == After(was, j + 1);
        }
      }
      assert |was| > 1 ==> head == was[1];
    }

    /** The loop of `Join`: every item of `other` now points to this list. */
    method Claim(other: List)
      requires other != this && other.Linked()
      modifies other.seqn
      ensures forall k :: 0 <= k < |other.seqn| ==> other.seqn[k].link == this
      ensures forall k :: 0 <= k < |other.seqn| ==>
        other.seqn[k].prev == old(other.seqn[k].prev) && other.seqn[k].next == old(other.seqn[k].next)
    {
      hide Distinct;
      var lp := other.head;
      ghost var n := 0;
      while lp != null
        invariant n <= |other.seqn| && lp == if n < |other.seqn| then other.seqn[n] else null
        invariant other.Linked()
        invariant forall k :: 0 <= k < n ==> other.seqn[k].link == this
        invariant forall k :: 0 <= k < |other.seqn| ==>
          other.seqn[k].prev == old(other.seqn[k].prev) && other.seqn[k].next == old(other.seqn[k].next)
        decreases |other.seqn| - n
      {
        assert lp.next == After(other.seqn, n);
        lp.link := this;
        lp := lp.next;
        n := n + 1;
      }
    }

    /** `Join` of a list that is not empty: all of it moves to the end. */
    method Splice(other: List)
      requires other != this && other.seqn != [] && Linked() && other.Linked() && Distinct(seqn + other.seqn) && Owns()
      modifies this, seqn, other, other.seqn
      ensures Linked() && Owns() && other.Linked()
      ensures seqn == old(seqn) + old(other.seqn) && other.seqn == []
    {
      hide Distinct;
      ghost var was, more := seqn, other.seqn;
      DistinctParts(was, more);
      Claim(other);
      var lp := other.head;
      if tail != null {
        tail.next := lp;
        lp.prev := tail;
        tail := other.tail;
      } else {
        head := other.head;
        tail := other.tail;
      }
      other.head, other.tail := null, null;
      seqn, other.seqn := was + more, [];
      if was != [] { DistinctFrom(was + more, |was| - 1); }
      DistinctFrom(was + more, |was|);
      DistinctNone();
      assert Chained() by {
        forall k | 0 <= k < |seqn| ensures seqn[k].prev == Before(seqn, k) && seqn[k].next == After(seqn, k) {
          NeighboursJoined(was, more, k);
        }
      }
    }
  }

  class World {
    ghost var lists: set<List>
    ghost var items: set<Item>

    ghost predicate Closed()
      reads this, lists
    {
      forall l, k :: l in lists && 0 <= k < |l.seqn| ==> l.seqn[k] in items
    }

    ghost predicate AllLinked()
      reads this, lists, items
      requires Closed()
    {
      forall l :: l in lists ==> l.Linked() && l.Owns()
    }

    ghost predicate PointBack()
      reads this, lists, items
    {
      forall i :: i in items && i.link != null ==> i.link in lists && i in i.link.seqn
    }

    /** Every list is well linked over items of this world, and an item is in the list it points to. */
    ghost predicate Valid()
      reads this, lists, items
    {
      Closed() && AllLinked() && PointBack()
    }

    /** Only `l` changed. */
    twostate predicate OnlyChanged(l: List)
      reads this, lists
    {
      && lists == old(lists) && items == old(items)
      && forall m :: m in lists && m != l ==> m.seqn == old(m.seqn)
    }

    lemma {:induction false} InItsList(i: Item)
      requires Valid() && i in items && i.link != null
      ensures i.link in lists && i in i.link.seqn
    {
    }

    /** A new item, in no list. */
    method NewItem(expire: nat) returns (i: Item)
      requires Valid()
      modifies this`items
      ensures Valid() && fresh(i) && i.expire == expire && i.link == null
      ensures items == old(items) + {i} && i !in old(items)
    {
      i := new Item(expire);
      items := items + {i};
    }

    /** A new empty list. */
    method NewList() returns (l: List)
      requires Valid()
      modifies this`lists
      ensures Valid() && fresh(l) && l.seqn == [] && lists == old(lists) + {l}
    {
      l := new List();
      lists := lists + {l};
    }

    method AddTail(l: List, ap: Item)
      requires Valid() && l in lists && ap in items
      modifies l, items
      ensures Valid() && OnlyChanged(l)
      ensures l.seqn == if old(ap.link) == null then old(l.seqn) + [ap] else old(l.seqn)
      ensures forall i :: i in items && i != ap ==> i.link == old(i.link)
      ensures ap.link == if old(ap.link) == null then l else old(ap.link)
    {
      hide List.Linked, Distinct;
      if ap.link != null {
        return;
      }
      ghost var was := l.seqn;
      l.Append(ap);
      assert forall j :: 0 <= j < |was| ==> l.seqn[j] == was[j];
      assert forall m :: m in lists && m != l ==> old(m.Linked());
    }

    /** Nothing happens to an item that is in no list. */
    method RemoveFromLink(ap: Item)
      requires Valid() && ap in items
      modifies ap.link, items
      ensures Valid() && lists == old(lists) && items == old(items) && ap.link == null
      ensures forall m :: m in lists && m != old(ap.link) ==> m.seqn == old(m.seqn)
      ensures old(ap.link) != null ==> old(ap.link).seqn == Without(old(ap.link.seqn), ap)
      ensures forall i :: i in items && i != ap ==> i.link == old(i.link)
    {
      if ap.link != null {
        RemoveLinked(ap, ap.link);
      }
    }

    method RemoveLinked(ap: Item, l: List)
      requires Valid() && ap in items && ap.link == l
      modifies l, items
      ensures Valid() && OnlyChanged(l) && ap.link == null && l.seqn == Without(old(l.seqn), ap)
      ensures forall i :: i in items && i != ap ==> i.link == old(i.link)
    {
      hide List.Linked, Distinct, Without;
      ghost var was := l.seqn;
      ghost var k :| 0 <= k < |was| && was[k] == ap;
      WithoutIs(l, k);
      assert forall m, j :: m in lists && m != l && 0 <= j < |m.seqn| ==> m.seqn[j] !in was;
      l.Remove(ap, k);
      assert AllLinked() by {
        assert forall j :: 0 <= j < |l.seqn| ==> l.seqn[j] == was[if j < k then j else j + 1];
        assert forall m :: m in lists && m != l ==> old(m.Linked());
      }
    }

    method PopHead(l: List)
      requires Valid() && l in lists
      modifies l, items
      ensures Valid() && OnlyChanged(l)
      ensures l.seqn == if old(l.seqn) == [] then [] else old(l.seqn[1..])
      ensures forall i :: i in items ==>
        i.link == if old(l.seqn) != [] && i == old(l.seqn[0]) then null else old(i.link)
    {
      hide List.Linked, Distinct;
      HeadIs(l);
      if l.head == null {
        return;
      }
      ghost var was := l.seqn;
      NotHead(l);
      l.Pop();
      assert forall j :: 0 < j < |was| ==> was[j] == l.seqn[j - 1];
      assert forall m :: m in lists && m != l ==> old(m.Linked());
    }

    method Join(l: List, other: List)
      requires Valid() && l in lists && other in lists && l != other
      modifies l, other, items
      ensures Valid() && lists == old(lists) && items == old(items)
      ensures l.seqn == old(l.seqn) + old(other.seqn) && other.seqn == []
      ensures forall m :: m in lists && m != l && m != other ==> m.seqn == old(m.seqn)
      ensures forall i :: i in items ==> i.link == if old(i.link) == other then l else old(i.link)
    {
      HeadIs(other);
      if other.head != null {
        JoinSome(l, other);
      }
    }

    method JoinSome(l: List, other: List)
      requires Valid() && l in lists && other in lists && l != other && other.seqn != []
      modifies l, other, items
      ensures Valid() && lists == old(lists) && items == old(items)
      ensures l.seqn == old(l.seqn) + old(other.seqn) && other.seqn == []
      ensures forall i :: i in items ==> i.link == if old(i.link) == other then l else old(i.link)
    {
      hide List.Linked, Distinct;
      ghost var was, more := l.seqn, other.seqn;
      assert forall m, k :: m in lists && m != l && m != other && 0 <= k < |m.seqn| ==>
        m.seqn[k] !in was && m.seqn[k] !in more;
      Apart(l, other);
      l.Splice(other);
      assert forall i :: i in was || i in more <==> i in l.seqn;
      assert AllLinked() by {
        assert forall m :: m in lists && m != l && m != other ==> old(m.Linked());
      }
    }
  }

  ghost function Without(s: seq<Item>, x: Item): seq<Item> {
    if s == [] then [] else if s[0] == x then s[1..] else [s[0]] + Without(s[1..], x)
  }

  lemma {:induction false} WithoutAt(s: seq<Item>, k: nat)
    requires k < |s| && Distinct(s)
    ensures Without(s, s[k]) == s[..k] + s[k + 1..]
  {
    if k > 0 {
      WithoutAt(s[1..], k - 1);
      assert s[..k] + s[k + 1..] == [s[0]] + (s[1..][..k - 1] + s[1..][k..]);
    }
  }

  lemma {:induction false} WithoutNone(s: seq<Item>, x: Item)
    requires x !in s
    ensures Without(s, x) == s
  {
    if s != [] {
      WithoutNone(s[1..], x);
      assert s == [s[0]] + s[1..];
    }
  }

  lemma {:induction false} WithoutIs(l: List, k: nat)
    requires l.Linked() && k < |l.seqn|
    ensures Without(l.seqn, l.seqn[k]) == l.seqn[..k] + l.seqn[k + 1..]
    ensures forall i :: i in l.seqn && i != l.seqn[k] ==> i in l.seqn[..k] + l.seqn[k + 1..]
    ensures forall j :: 0 <= j < |l.seqn| && j != k ==> l.seqn[j] != l.seqn[k]
  {
    WithoutAt(l.seqn, k);
    DistinctFrom(l.seqn, k);
  }

  lemma {:induction false} HeadIs(l: List)
    requires l.Linked()
    ensures l.head == if l.seqn == [] then null else l.seqn[0]
  {
  }

  lemma {:induction false} NotHead(l: List)
    requires l.Linked() && l.seqn != []
    ensures forall k :: 0 < k < |l.seqn| ==> l.seqn[k] != l.seqn[0]
  {
    DistinctFrom(l.seqn, 0);
  }

  lemma {:induction false} Apart(l: List, m: List)
    requires l != m && l.Linked() && m.Linked() && l.Owns() && m.Owns()
    ensures Distinct(l.seqn + m.seqn)
  {
  }
}
