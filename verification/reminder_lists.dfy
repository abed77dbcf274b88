/**
  The list computations of the home screen's triage handlers, as pure functions:
  the accepted item joins the upcoming list, which is then sorted by due time with
  a stable sort (`Array.prototype.sort` is stable since ECMAScript 2019), and
  suggestions are filtered by id.
 */
module ReminderLists {
  import opened ReminderService

  predicate SortedByWhen(s: seq<Reminder>) {
    forall i, j :: 0 <= i < j < |s| ==> s[i].when <= s[j].when
  }

  /** The entries of `s` due exactly at `t`, in their order in `s`. */
  function AtTime(s: seq<Reminder>, t: int): seq<Reminder> {
    if s == [] then [] else (if s[0].when == t then [s[0]] else []) + AtTime(s[1..], t)
  }

  // ---------------------------------------------------------------------------
  // Stable sort by due time

  /** Inserts `x` into a time-ordered list after every entry due no later than `x`. */
  function InsertByWhen(x: Reminder, s: seq<Reminder>): (r: seq<Reminder>)
    ensures multiset(r) == multiset(s) + multiset{x}
  {
    if s == [] || x.when < s[0].when then
      [x] + s
    else
      assert s == [s[0]] + s[1..];
      [s[0]] + InsertByWhen(x, s[1..])
  }

  /** Every entry of the insertion result is due no earlier than a bound all inputs meet. */
  lemma {:induction false} InsertByWhenAtLeast(x: Reminder, s: seq<Reminder>, lo: int)
    requires lo <= x.when
    requires forall i :: 0 <= i < |s| ==> lo <= s[i].when
    ensures forall k :: 0 <= k < |InsertByWhen(x, s)| ==> lo <= InsertByWhen(x, s)[k].when
  {
    if s != [] && s[0].when <= x.when {
      InsertByWhenAtLeast(x, s[1..], lo);
    }
  }

  lemma {:induction false} InsertByWhenSorted(x: Reminder, s: seq<Reminder>)
    requires SortedByWhen(s)
    ensures SortedByWhen(InsertByWhen(x, s))
  {
    if s != [] && s[0].when <= x.when {
      InsertByWhenSorted(x, s[1..]);
      InsertByWhenAtLeast(x, s[1..], s[0].when);
    }
  }

  /** Sorts by due time, keeping entries due at the same time in their original order. */
  function SortByWhen(s: seq<Reminder>): (r: seq<Reminder>)
    ensures SortedByWhen(r)
    ensures multiset(r) == multiset(s)
    decreases |s|
  {
    if s == [] then
      []
    else
      assert s == s[..|s| - 1] + [s[|s| - 1]];
      InsertByWhenSorted(s[|s| - 1], SortByWhen(s[..|s| - 1]));
      InsertByWhen(s[|s| - 1], SortByWhen(s[..|s| - 1]))
  }

  lemma {:induction false} AtTimeAppend(a: seq<Reminder>, b: seq<Reminder>, t: int)
    ensures AtTime(a + b, t) == AtTime(a, t) + AtTime(b, t)
  {
    if a == [] {
      assert a + b == b;
    } else {
      var head := if a[0].when == t then [a[0]] else [];
      assert (a + b)[0] == a[0] && (a + b)[1..] == a[1..] + b;
      calc {
        AtTime(a + b, t);
        head + AtTime(a[1..] + b, t);
        { AtTimeAppend(a[1..], b, t); }
        head + (AtTime(a[1..], t) + AtTime(b, t));
        (head + AtTime(a[1..], t)) + AtTime(b, t);
        AtTime(a, t) + AtTime(b, t);
      }
    }
  }

  lemma {:induction false} AtTimeOfLater(s: seq<Reminder>, t: int)
    requires forall i :: 0 <= i < |s| ==> s[i].when > t
    ensures AtTime(s, t) == []
  {
    if s != [] {
      AtTimeOfLater(s[1..], t);
    }
  }

  /** Inserting `x` appends it to the entries due at its own time and leaves the others alone. */
  lemma {:induction false} InsertByWhenAtTime(x: Reminder, s: seq<Reminder>, t: int)
    requires SortedByWhen(s)
    ensures AtTime(InsertByWhen(x, s), t) == AtTime(s, t) + (if x.when == t then [x] else [])
  {
    var own := if x.when == t then [x] else [];
    if s == [] || x.when < s[0].when {
      assert AtTime([x], t) == own;
      AtTimeAppend([x], s, t);
      if x.when == t {
        AtTimeOfLater(s, t);
      }
    } else {
      var head, rest := [s[0]], s[1..];
      assert s == head + rest;
      assert SortedByWhen(rest);
      calc {
        AtTime(InsertByWhen(x, s), t);
        { assert InsertByWhen(x, s) == head + InsertByWhen(x, rest); }
        AtTime(head + InsertByWhen(x, rest), t);
        { AtTimeAppend(head, InsertByWhen(x, rest), t); }
        AtTime(head, t) + AtTime(InsertByWhen(x, rest), t);
        { InsertByWhenAtTime(x, rest, t); }
        AtTime(head, t) + (AtTime(rest, t) + own);
        (AtTime(head, t) + AtTime(rest, t)) + own;
        { AtTimeAppend(head, rest, t); }
        AtTime(s, t) + own;
      }
    }
  }

  /** Stability: for every due time, the entries due then keep their relative order. */
  lemma {:induction false} SortByWhenStable(s: seq<Reminder>, t: int)
    ensures AtTime(SortByWhen(s), t) == AtTime(s, t)
    decreases |s|
  {
    if s != [] {
      var init, last := s[..|s| - 1], s[|s| - 1];
      assert s == init + [last];
      SortByWhenStable(init, t);
      InsertByWhenAtTime(last, SortByWhen(init), t);
      AtTimeAppend(init, [last], t);
    }
  }

  lemma {:induction false} AtTimeNonEmpty(s: seq<Reminder>, t: int)
    requires SortedByWhen(s)
    requires AtTime(s, t) != []
    ensures s != [] && s[0].when <= t
  {
    if s != [] && s[0].when != t {
      AtTimeNonEmpty(s[1..], t);
    }
  }

  lemma AtTimeOfFirst(s: seq<Reminder>)
    ensures s != [] ==> AtTime(s, s[0].when) != []
  {
  }

  /**
    A time-ordered list is determined by its entries at each due time: there is
    exactly one stable sort result, so SortByWhen is it.
   */
  lemma {:induction false} StableSortUnique(a: seq<Reminder>, b: seq<Reminder>)
    requires SortedByWhen(a) && SortedByWhen(b)
    requires forall t :: AtTime(a, t) == AtTime(b, t)
    ensures a == b
    decreases |a|
  {
    if a == [] || b == [] {
      if a != [] {
        AtTimeOfFirst(a);
        assert false;
      } else if b != [] {
        AtTimeOfFirst(b);
        assert false;
      }
    } else {
      var m := a[0].when;
      AtTimeNonEmpty(b, m);
      AtTimeNonEmpty(a, b[0].when);
      assert b[0].when == m;
      assert AtTime(a, m) == [a[0]] + AtTime(a[1..], m);
      assert AtTime(b, m) == [b[0]] + AtTime(b[1..], m);
      assert AtTime(a, m) == AtTime(b, m);
      assert AtTime(a, m)[0] == a[0] && AtTime(b, m)[0] == b[0];
      forall t
        ensures AtTime(a[1..], t) == AtTime(b[1..], t)
      {
        if t == m {
          assert AtTime(a[1..], m) == AtTime(a, m)[1..];
          assert AtTime(b[1..], m) == AtTime(b, m)[1..];
        } else {
          assert AtTime(a, t) == AtTime(a[1..], t);
          assert AtTime(b, t) == AtTime(b[1..], t);
        }
      }
      StableSortUnique(a[1..], b[1..]);
      assert a == [a[0]] + a[1..] && b == [b[0]] + b[1..];
    }
  }

  /** Sorting an already time-ordered list changes nothing. */
  lemma SortByWhenOfSorted(s: seq<Reminder>)
    requires SortedByWhen(s)
    ensures SortByWhen(s) == s
  {
    forall t ensures AtTime(SortByWhen(s), t) == AtTime(s, t) {
      SortByWhenStable(s, t);
    }
    StableSortUnique(SortByWhen(s), s);
  }

  /**
    Into a time-ordered list, `x` goes right after the last entry due no later
    than it, and nothing else moves.
   */
  lemma {:induction false} InsertByWhenPlacement(x: Reminder, s: seq<Reminder>) returns (k: nat)
    requires SortedByWhen(s)
    ensures k <= |s| && InsertByWhen(x, s) == s[..k] + [x] + s[k..]
    ensures forall i :: 0 <= i < k ==> s[i].when <= x.when
    ensures forall i :: k <= i < |s| ==> s[i].when > x.when
  {
    if s == [] || x.when < s[0].when {
      k := 0;
    } else {
      var j := InsertByWhenPlacement(x, s[1..]);
      k := j + 1;
      assert s[..k] == [s[0]] + s[1..][..j];
      assert s[k..] == s[1..][j..];
    }
  }

  // ---------------------------------------------------------------------------
  // Accept: `[...prev, item].sort(by time)`

  /** The upcoming list after accepting `item`: the old list plus the item, in time order. */
  function AcceptedUpcoming(prev: seq<Reminder>, item: Reminder): (next: seq<Reminder>)
    ensures SortedByWhen(next)
    ensures multiset(next) == multiset(prev) + multiset{item}
    ensures |next| == |prev| + 1
  {
    assert |multiset(prev + [item])| == |prev| + 1;
    SortByWhen(prev + [item])
  }

  /**
    The accepted item lands after every existing entry due at the same time,
    and entries due at other times keep their relative order.
   */
  lemma AcceptedUpcomingAtTime(prev: seq<Reminder>, item: Reminder, t: int)
    ensures AtTime(AcceptedUpcoming(prev, item), t)
         == AtTime(prev, t) + (if item.when == t then [item] else [])
  {
    SortByWhenStable(prev + [item], t);
    AtTimeAppend(prev, [item], t);
  }

  /**
    When the upcoming list is already in time order, accepting inserts the item
    just after the last entry due no later than it and leaves the rest in place.
   */
  lemma AcceptedUpcomingIntoSorted(prev: seq<Reminder>, item: Reminder) returns (k: nat)
    requires SortedByWhen(prev)
    ensures k <= |prev| && AcceptedUpcoming(prev, item) == prev[..k] + [item] + prev[k..]
    ensures forall i :: 0 <= i < k ==> prev[i].when <= item.when
    ensures forall i :: k <= i < |prev| ==> prev[i].when > item.when
  {
    var s := prev + [item];
    assert s[..|s| - 1] == prev;
    SortByWhenOfSorted(prev);
    k := InsertByWhenPlacement(item, prev);
  }

  // ---------------------------------------------------------------------------
  // Dismiss and the suggestion half of accept: `prev.filter(p => p.id !== id)`

  /** The entries of `s` whose id is not `id`, in their original order. */
  function RemoveId(s: seq<Reminder>, id: string): (r: seq<Reminder>)
    ensures |r| <= |s|
    ensures forall i :: 0 <= i < |r| ==> r[i].id != id && r[i] in s
  {
    if s == [] then [] else (if s[0].id == id then [] else [s[0]]) + RemoveId(s[1..], id)
  }

  /**
    Every entry with another id survives as often as it occurred; every entry
    with the removed id is gone.
   */
  lemma {:induction false} RemoveIdCount(s: seq<Reminder>, id: string, x: Reminder)
    ensures multiset(RemoveId(s, id))[x] == if x.id == id then 0 else multiset(s)[x]
  {
    if s != [] {
      RemoveIdCount(s[1..], id, x);
      assert s == [s[0]] + s[1..];
    }
  }

  /** Filtering distributes over concatenation, so the survivors keep their order. */
  lemma {:induction false} RemoveIdAppend(a: seq<Reminder>, b: seq<Reminder>, id: string)
    ensures RemoveId(a + b, id) == RemoveId(a, id) + RemoveId(b, id)
  {
    if a == [] {
      assert a + b == b;
    } else {
      var head := if a[0].id == id then [] else [a[0]];
      assert (a + b)[0] == a[0] && (a + b)[1..] == a[1..] + b;
      calc {
        RemoveId(a + b, id);
        head + RemoveId(a[1..] + b, id);
        { RemoveIdAppend(a[1..], b, id); }
        head + (RemoveId(a[1..], id) + RemoveId(b, id));
        (head + RemoveId(a[1..], id)) + RemoveId(b, id);
        RemoveId(a, id) + RemoveId(b, id);
      }
    }
  }

  /** A list without the id is left exactly as it was. */
  lemma {:induction false} RemoveIdAbsent(s: seq<Reminder>, id: string)
    requires forall i :: 0 <= i < |s| ==> s[i].id != id
    ensures RemoveId(s, id) == s
  {
    if s != [] {
      RemoveIdAbsent(s[1..], id);
    }
  }

  /** Removing the same id twice is the same as removing it once. */
  lemma RemoveIdIdempotent(s: seq<Reminder>, id: string)
    ensures RemoveId(RemoveId(s, id), id) == RemoveId(s, id)
  {
    RemoveIdAbsent(RemoveId(s, id), id);
  }

  /** Removing two ids gives the same list in either order. */
  lemma {:induction false} RemoveIdCommutes(s: seq<Reminder>, id1: string, id2: string)
    ensures RemoveId(RemoveId(s, id1), id2) == RemoveId(RemoveId(s, id2), id1)
  {
    if s != [] {
      var h := s[0];
      RemoveIdCommutes(s[1..], id1, id2);
      var a := if h.id == id1 then [] else [h];
      var b := if h.id == id2 then [] else [h];
      RemoveIdAppend(a, RemoveId(s[1..], id1), id2);
      RemoveIdAppend(b, RemoveId(s[1..], id2), id1);
      assert RemoveId(a, id2) == RemoveId(b, id1);
    }
  }
}
