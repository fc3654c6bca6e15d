// Page replacement in CLab/mmap2.c: the choice of a victim in handle_sigsegv. Pages
// get no access other than their fault here, so the policies can be compared exactly.

module Paging {
  datatype Policy = LRU | MRU | CLOCK

  /** turn (proof state) is the slot whose page came in longest ago, once all are full. */
  datatype State = State(slots: int, policy: Policy, base: seq<int>, lastAcc: seq<int>, accessBit: seq<bool>,
                         count: int, clockHand: int, counter: int, ghost turn: int)

  /** How long ago, in page loads, slot i was filled: 0 is the oldest. */
  function Age(turn: int, n: int, i: int): int {
    if i >= turn then i - turn else i - turn + n
  }

  ghost predicate Shape(s: State) {
    && s.slots >= 1 && |s.base| == |s.lastAcc| == |s.accessBit| == s.slots
    && 0 <= s.count <= s.slots && 0 <= s.turn < s.slots && 0 <= s.clockHand < s.slots
  }

  ghost predicate Ok(s: State) {
    && Shape(s)
    && (s.count < s.slots || s.policy == MRU ==> s.turn == 0)
    && (forall i, j :: 0 <= i < j < s.count ==> s.base[i] != s.base[j])
    && (forall i :: 0 <= i < s.count ==> s.lastAcc[i] <= s.counter)
    && (forall i, j :: 0 <= i < s.count && 0 <= j < s.count && Age(s.turn, s.slots, i) < Age(s.turn, s.slots, j) ==>
          s.lastAcc[i] < s.lastAcc[j])
    && (s.policy == CLOCK ==>
          s.clockHand == s.turn && forall i :: 0 <= i < s.count ==> (s.accessBit[i] <==> s.turn == 0 || i < s.turn))
  }

  /** The pages that are mapped. */
  function Mapped(s: State): set<int>
    requires 0 <= s.count <= |s.base|
  {
    set i | 0 <= i < s.count :: s.base[i]
  }

  lemma ShapeOf(s: State)
    requires Ok(s)
    ensures Shape(s) && (s.count < s.slots ==> s.turn == 0)
  {
  }

  /** Which slot a full cache gives up. */
  ghost function Victim(s: State): int {
    if s.policy == MRU then s.slots - 1 else s.turn
  }

  ghost function TurnAfter(s: State): int {
    if s.policy == MRU || s.count < s.slots || s.turn + 1 == s.slots then 0 else s.turn + 1
  }

  /** Once page is in slot v. */
  ghost function Loaded(s: State, v: int, page: int): State
    requires 0 <= v < |s.base| && v < |s.lastAcc| && v < |s.accessBit| && s.slots > 0
  {
    s.(base := s.base[v := page], lastAcc := s.lastAcc[v := s.counter + 1], counter := s.counter + 1,
       accessBit := if s.policy == CLOCK then s.accessBit[v := true] else s.accessBit,
       count := if s.count < s.slots then s.count + 1 else s.count, turn := TurnAfter(s))
  }

  lemma LoadedFresh(s: State, page: int)
    requires Ok(s) && s.count < s.slots && page !in Mapped(s)
    ensures Ok(Loaded(s, s.count, page)) && Mapped(Loaded(s, s.count, page)) == Mapped(s) + {page}
  {
    var t := Loaded(s, s.count, page);
    assert forall i :: 0 <= i < s.count ==> s.base[i] in Mapped(s);
    forall x ensures x in Mapped(t) <==> x in Mapped(s) + {page} {
      if x == page { assert t.base[s.count] == page; }
      if x in Mapped(s) {
        var i :| 0 <= i < s.count && s.base[i] == x;
        assert t.base[i] == x;
      }
    }
  }

  /** A cache just swept: what Loaded needs of the clock's bits and hand. */
  ghost predicate Swept(s: State, t: State) {
    && t == s.(accessBit := t.accessBit, clockHand := t.clockHand) && |t.accessBit| == s.slots
    && t.clockHand == TurnAfter(s)
    && (forall i :: 0 <= i < s.slots ==> (t.accessBit[i] <==> s.turn != 0 && i < s.turn))
  }

  lemma NextSlot(i: int, n: int)
    requires 0 <= i < n
    ensures (i + 1) % n == if i + 1 == n then 0 else i + 1
  {
  }

  /** The slot just filled becomes the youngest; the others keep their order. */
  lemma AgesKept(turn: int, n: int, i: int, j: int)
    requires 0 <= turn < n && 0 <= i < n && 0 <= j < n
    ensures var u := if turn + 1 == n then 0 else turn + 1;
            Age(u, n, i) < Age(u, n, j) ==> i != turn && (j != turn ==> Age(turn, n, i) < Age(turn, n, j))
  {
  }

  lemma OrderOver(s: State, t: State, page: int)
    requires Ok(s) && s.count == s.slots
    requires |t.base| == |t.lastAcc| == |t.accessBit| == s.slots && t.lastAcc == s.lastAcc && t.counter == s.counter
    requires t.slots == s.slots && t.policy == s.policy && t.turn == s.turn && t.count == s.count
    ensures var u := Loaded(t, Victim(s), page);
            (forall i :: 0 <= i < s.slots ==> u.lastAcc[i] <= u.counter) &&
            (forall i, j :: 0 <= i < s.slots && 0 <= j < s.slots &&
                            Age(u.turn, s.slots, i) < Age(u.turn, s.slots, j) ==>
              u.lastAcc[i] < u.lastAcc[j])
  {
    var v := Victim(s);
    var u := Loaded(t, v, page);
    forall i, j | 0 <= i < s.slots && 0 <= j < s.slots && Age(u.turn, s.slots, i) < Age(u.turn, s.slots, j)
      ensures u.lastAcc[i] < u.lastAcc[j]
    {
      if s.policy != MRU {
        AgesKept(s.turn, s.slots, i, j);
      }
      assert i != v;
      if j != v {
        assert Age(s.turn, s.slots, i) < Age(s.turn, s.slots, j);
      }
    }
  }

  lemma LoadedOver(s: State, t: State, page: int)
    requires Ok(s) && s.count == s.slots && page !in Mapped(s)
    requires if s.policy == CLOCK then Swept(s, t) else t == s
    ensures Shape(t) && 0 <= Victim(s) < s.slots
    ensures Ok(Loaded(t, Victim(s), page))
  {
    assert forall i :: 0 <= i < s.count ==> s.base[i] in Mapped(s);
    OrderOver(s, t, page);
    hide Age;
  }

  lemma MappedOver(s: State, t: State, v: int, page: int)
    requires Ok(s) && s.count == s.slots && page !in Mapped(s) && 0 <= v < s.slots
    requires t.count == s.count && t.base == s.base[v := page]
    ensures Mapped(t) == Mapped(s) - {s.base[v]} + {page}
  {
    forall x ensures x in Mapped(t) <==> x in Mapped(s) - {s.base[v]} + {page} {
      if x in Mapped(s) && x != s.base[v] {
        var i :| 0 <= i < s.count && s.base[i] == x;
        assert t.base[i] == x;
      }
      if x == page { assert t.base[v] == x; }
      if x in Mapped(t) {
        var i :| 0 <= i < t.count && t.base[i] == x;
        if i != v { assert s.base[i] == x && s.base[i] != s.base[v]; }
      }
    }
  }

  // ----------------------------------------------------------- what the code chooses

  /** The first of the least, as the loop of the LRU case finds it. */
  function MinAt(a: seq<int>, k: nat): (v: int)
    requires 0 < k <= |a|
    ensures 0 <= v < k && forall j :: 0 <= j < k ==> a[v] <= a[j]
  {
    if k == 1 then 0
    else
      var v := MinAt(a, k - 1);
      if a[k - 1] < a[v] then k - 1 else v
  }

  /** The first of the greatest, as the loop of the MRU case finds it. */
  function MaxAt(a: seq<int>, k: nat): (v: int)
    requires 0 < k <= |a|
    ensures 0 <= v < k && forall j :: 0 <= j < k ==> a[j] <= a[v]
  {
    if k == 1 then 0
    else
      var v := MaxAt(a, k - 1);
      if a[k - 1] > a[v] then k - 1 else v
  }

  ghost function Trues(bits: seq<bool>): nat {
    if bits == [] then 0 else Trues(bits[1..]) + if bits[0] then 1 else 0
  }

  lemma {:induction false} TruesDrop(bits: seq<bool>, i: nat)
    requires i < |bits| && bits[i]
    ensures Trues(bits[i := false]) < Trues(bits)
  {
    if i == 0 {
      assert bits[i := false][1..] == bits[1..];
    } else {
      TruesDrop(bits[1..], i - 1);
      assert bits[i := false][1..] == bits[1..][i - 1 := false];
    }
  }

  /** The clock's search from hand: where it stops, and the bits it leaves. For any bits
      it comes to an end, with one true bit fewer at each look that goes on. */
  ghost function Search(bits: seq<bool>, hand: int): (r: (int, seq<bool>))
    requires 0 <= hand < |bits|
    ensures 0 <= r.0 < |bits| && |r.1| == |bits|
    decreases Trues(bits)
  {
    if !bits[hand] then (hand, bits)
    else
      TruesDrop(bits, hand);
      Search(bits[hand := false], (hand + 1) % |bits|)
  }

  /** The slot that handle_sigsegv gives up, -1 while there is room. */
  ghost function Chosen(s: State): int
    requires Shape(s)
  {
    if s.count < s.slots then -1
    else match s.policy
         case LRU => MinAt(s.lastAcc, s.slots)
         case MRU => MaxAt(s.lastAcc, s.slots)
         case CLOCK => Search(s.accessBit, s.clockHand).0
  }

  /** The state after it. */
  ghost function Faulted(s: State, page: int): State
    requires Shape(s)
  {
    if s.count < s.slots then Loaded(s, s.count, page)
    else if s.policy == CLOCK then
      var r := Search(s.accessBit, s.clockHand);
      Loaded(s.(accessBit := r.1, clockHand := (r.0 + 1) % s.slots), r.0, page)
    else Loaded(s, Chosen(s), page)
  }

  /** With all bits from hand on, and no others, the search clears them and stops at 0. */
  lemma {:induction false} SearchClears(bits: seq<bool>, hand: nat)
    requires hand < |bits| && forall i :: 0 <= i < |bits| ==> (bits[i] <==> i >= hand)
    ensures Search(bits, hand) == (0, seq(|bits|, _ => false))
    decreases |bits| - hand
  {
    var next := bits[hand := false];
    NextSlot(hand, |bits|);
    if hand + 1 < |bits| {
      SearchClears(next, hand + 1);
    } else {
      assert next == seq(|bits|, _ => false);
      assert Search(next, 0) == (0, next);
    }
  }

  lemma SearchFinds(s: State)
    requires Ok(s) && s.count == s.slots && s.policy == CLOCK
    ensures var r := Search(s.accessBit, s.clockHand);
            r.0 == s.turn && Swept(s, s.(accessBit := r.1, clockHand := (r.0 + 1) % s.slots))
  {
    NextSlot(s.turn, s.slots);
    if s.turn == 0 {
      SearchClears(s.accessBit, 0);
    }
  }

  lemma LeastIs(s: State)
    requires Ok(s) && s.count == s.slots
    ensures MinAt(s.lastAcc, s.slots) == s.turn
  {
    assert Age(s.turn, s.slots, s.turn) == 0;
    var v := MinAt(s.lastAcc, s.slots);
    assert v != s.turn ==> Age(s.turn, s.slots, s.turn) < Age(s.turn, s.slots, v);
  }

  lemma GreatestIs(s: State)
    requires Ok(s) && s.count == s.slots && s.policy == MRU
    ensures MaxAt(s.lastAcc, s.slots) == s.slots - 1
  {
    var v := MaxAt(s.lastAcc, s.slots);
    assert v != s.slots - 1 ==> Age(s.turn, s.slots, v) < Age(s.turn, s.slots, s.slots - 1);
  }

  /** In a state that can be reached each policy's choice has a simple description. */
  lemma ChosenIs(s: State)
    requires Ok(s)
    ensures Chosen(s) == if s.count < s.slots then -1 else Victim(s)
  {
    if s.count == s.slots {
      match s.policy
      case LRU => LeastIs(s);
      case MRU => GreatestIs(s);
      case CLOCK => SearchFinds(s);
    }
  }

  lemma FaultedOk(s: State, page: int)
    requires Ok(s) && page !in Mapped(s)
    ensures var t, v := Faulted(s, page), Chosen(s);
      && Ok(t) && t.slots == s.slots && t.policy == s.policy
      && v == (if s.count < s.slots then -1 else Victim(s)) && v < s.slots
      && t.base == s.base[(if v < 0 then s.count else v) := page]
      && t.count == (if v < 0 then s.count + 1 else s.count) && t.turn == TurnAfter(s)
  {
    ChosenIs(s);
    if s.count < s.slots {
      LoadedFresh(s, page);
    } else if s.policy == CLOCK {
      SearchFinds(s);
      var r := Search(s.accessBit, s.clockHand);
      LoadedOver(s, s.(accessBit := r.1, clockHand := (r.0 + 1) % s.slots), page);
    } else {
      LoadedOver(s, s, page);
    }
  }

  // ------------------------------------------------------------------ runs

  /** What an access comes to. */
  datatype Outcome = Hit | Miss(victim: int)

  function Start(slots: int, policy: Policy): (s: State)
    requires slots >= 1
    ensures Ok(s)
  {
    State(slots, policy, seq(slots, _ => 0), seq(slots, _ => 0), seq(slots, _ => false), 0, 0, 0, 0)
  }

  /** A page that is mapped is simply used; any other faults. */
  ghost function Outcomes(s: State, accesses: seq<int>): seq<Outcome>
    requires Ok(s)
    decreases |accesses|
  {
    if accesses == [] then []
    else if accesses[0] in Mapped(s) then [Hit] + Outcomes(s, accesses[1..])
    else
      FaultedOk(s, accesses[0]);
      [Miss(Chosen(s))] + Outcomes(Faulted(s, accesses[0]), accesses[1..])
  }

  ghost function After(s: State, accesses: seq<int>): (t: State)
    requires Ok(s)
    ensures Ok(t) && t.slots == s.slots && t.policy == s.policy
    decreases |accesses|
  {
    if accesses == [] then s
    else if accesses[0] in Mapped(s) then After(s, accesses[1..])
    else
      FaultedOk(s, accesses[0]);
      After(Faulted(s, accesses[0]), accesses[1..])
  }

  lemma {:induction false} OneMore(s: State, accesses: seq<int>, page: int)
    requires Ok(s)
    ensures var t := After(s, accesses);
            && Outcomes(s, accesses + [page]) ==
                 Outcomes(s, accesses) + [if page in Mapped(t) then Hit else Miss(Chosen(t))]
            && After(s, accesses + [page]) == if page in Mapped(t) then t else Faulted(t, page)
    decreases |accesses|
  {
    hide Ok, Faulted, Chosen, Mapped;
    ShapeOf(s);
    if accesses == [] {
      assert [] + [page] == [page] && [page][1..] == [];
      if page !in Mapped(s) {
        FaultedOk(s, page);
      }
    } else {
      assert (accesses + [page])[1..] == accesses[1..] + [page];
      if accesses[0] in Mapped(s) {
        OneMore(s, accesses[1..], page);
      } else {
        FaultedOk(s, accesses[0]);
        OneMore(Faulted(s, accesses[0]), accesses[1..], page);
      }
    }
  }

  // ------------------------------------------------------------ LRU against CLOCK

  ghost predicate SamePages(s: State, t: State) {
    && s.slots == t.slots && s.count == t.count && s.turn == t.turn && |s.base| == |t.base| == s.slots
    && 0 <= s.count <= s.slots && forall i :: 0 <= i < s.count ==> s.base[i] == t.base[i]
  }

  lemma SameMapped(s: State, t: State)
    requires SamePages(s, t)
    ensures Mapped(s) == Mapped(t)
  {
    assert forall x :: x in Mapped(s) ==> x in Mapped(t);
    assert forall x :: x in Mapped(t) ==> x in Mapped(s);
  }

  lemma SameFault(s: State, t: State, page: int)
    requires Ok(s) && Ok(t) && s.policy != MRU && t.policy != MRU && SamePages(s, t) && page !in Mapped(s)
    ensures page !in Mapped(t) && Chosen(s) == Chosen(t) && SamePages(Faulted(s, page), Faulted(t, page))
  {
    SameMapped(s, t);
    FaultedOk(s, page);
    FaultedOk(t, page);
    hide Ok, Faulted, Chosen, Mapped;
  }

  lemma {:induction false} SameFrom(s: State, t: State, accesses: seq<int>)
    requires Ok(s) && Ok(t) && s.policy != MRU && t.policy != MRU && SamePages(s, t)
    ensures Outcomes(s, accesses) == Outcomes(t, accesses)
    decreases |accesses|
  {
    hide Ok, Faulted, Chosen, Mapped, SamePages;
    ShapeOf(s);
    ShapeOf(t);
    if accesses != [] {
      SameMapped(s, t);
      if accesses[0] in Mapped(s) {
        SameFrom(s, t, accesses[1..]);
      } else {
        SameFault(s, t, accesses[0]);
        FaultedOk(s, accesses[0]);
        FaultedOk(t, accesses[0]);
        SameFrom(Faulted(s, accesses[0]), Faulted(t, accesses[0]), accesses[1..]);
      }
    }
  }

  /** For every sequence of accesses and every number of slots, LRU and the clock fault
      at the same accesses and give up the same slots: both are first in, first out. */
  lemma SameFaults(slots: int, accesses: seq<int>)
    requires slots >= 1
    ensures Outcomes(Start(slots, LRU), accesses) == Outcomes(Start(slots, CLOCK), accesses)
  {
    SameFrom(Start(slots, LRU), Start(slots, CLOCK), accesses);
  }

  class Cache {
    var s: State

    constructor (slots: int, policy: Policy)
      requires slots >= 1
      ensures s == Start(slots, policy)
    {
      s := State(slots, policy, seq(slots, _ => 0), seq(slots, _ => 0), seq(slots, _ => false), 0, 0, 0, 0);
    }

    method LeastRecent() returns (v: int)
      requires Ok(s) && s.count == s.slots
      ensures v == MinAt(s.lastAcc, s.slots) && v == s.turn
    {
      LeastIs(s);
      ShapeOf(s);
      hide Ok;
      var min := s.lastAcc[0];
      v := 0;
      for i := 1 to s.slots
        invariant 0 <= v < i && min == s.lastAcc[v] && v == MinAt(s.lastAcc, i)
      {
        if s.lastAcc[i] < min {
          min := s.lastAcc[i];
          v := i;
        }
      }
    }

    method MostRecent() returns (v: int)
      requires Ok(s) && s.count == s.slots && s.policy == MRU
      ensures v == MaxAt(s.lastAcc, s.slots) && v == s.slots - 1
    {
      GreatestIs(s);
      ShapeOf(s);
      hide Ok;
      var max := s.lastAcc[0];
      v := 0;
      for i := 1 to s.slots
        invariant 0 <= v < i && max == s.lastAcc[v] && v == MaxAt(s.lastAcc, i)
      {
        if s.lastAcc[i] > max {
          max := s.lastAcc[i];
          v := i;
        }
      }
    }

    /** The clock search: it stops at turn, after at most slots + 1 looks. */
    method Sweep() returns (v: int, looks: int)
      requires Ok(s) && s.count == s.slots && s.policy == CLOCK
      modifies this
      ensures old(Shape(s)) && (v, s.accessBit) == Search(old(s).accessBit, old(s).clockHand)
      ensures v == old(s).turn && Swept(old(s), s) && s.clockHand == (v + 1) % s.slots && looks <= s.slots + 1
    {
      looks := 0;
      ghost var n, turn := s.slots, s.turn;
      while true
        invariant s == old(s).(accessBit := s.accessBit, clockHand := s.clockHand) && |s.accessBit| == n
        invariant 0 <= looks <= n && (turn != 0 ==> looks == 0)
        invariant s.clockHand == if looks == n then turn else turn + looks
        invariant forall i :: 0 <= i < n ==> (s.accessBit[i] <==> if turn == 0 then i >= looks else i < turn)
        invariant Search(s.accessBit, s.clockHand) == Search(old(s).accessBit, old(s).clockHand)
        decreases n - looks
      {
        looks := looks + 1;
        var hand := s.clockHand;
        NextSlot(hand, s.slots);
        if !s.accessBit[hand] {
          v := hand;
          s := s.(clockHand := (hand + 1) % s.slots);
          break;
        } else {
          s := s.(accessBit := s.accessBit[hand := false]);
          s := s.(clockHand := (hand + 1) % s.slots);
        }
      }
    }

    /** handle_sigsegv, for a page that is not mapped: victim is the slot given up, -1
        while there is room. */
    method Fault(page: int) returns (victim: int)
      requires Ok(s) && page !in Mapped(s)
      modifies this
      ensures old(Shape(s)) && s == Faulted(old(s), page) && victim == Chosen(old(s))
      ensures Ok(s) && s.slots == old(s).slots && s.policy == old(s).policy
      ensures victim == if old(s).count < s.slots then -1 else Victim(old(s))
      ensures old(s).count < s.slots ==> Mapped(s) == Mapped(old(s)) + {page}
      ensures old(s).count == s.slots ==> Mapped(s) == Mapped(old(s)) - {old(s).base[victim]} + {page}
      ensures s.base == old(s).base[(if victim < 0 then old(s).count else victim) := page]
      ensures s.count == (if victim < 0 then old(s).count + 1 else old(s).count)
    {
      hide Ok, Mapped, Search, MinAt, MaxAt;
      ghost var s0 := s;
      ShapeOf(s);
      FaultedOk(s, page);
      victim := -1;
      if s.count >= s.slots {
        match s.policy {
          case LRU => victim := LeastRecent();
          case MRU => victim := MostRecent();
          case CLOCK =>
            var looks;
            victim, looks := Sweep();
        }
        ghost var s1 := s;
        s := s.(base := s.base[victim := page]);
        s := s.(lastAcc := s.lastAcc[victim := s.counter + 1], counter := s.counter + 1);
        if s.policy == CLOCK {
          s := s.(accessBit := s.accessBit[victim := true]);
        }
        s := s.(turn := TurnAfter(s0));
        assert s == Loaded(s1, victim, page);
        MappedOver(s0, s, victim, page);
      } else {
        LoadedFresh(s0, page);
        s := s.(base := s.base[s.count := page]);
        s := s.(lastAcc := s.lastAcc[s.count := s.counter + 1], counter := s.counter + 1);
        if s.policy == CLOCK {
          s := s.(accessBit := s.accessBit[s.count := true]);
        }
        s := s.(count := s.count + 1);
        assert s == Loaded(s0, s0.count, page);
      }
    }
  }

  /** A whole run of one policy. */
  method Run(slots: int, policy: Policy, accesses: seq<int>) returns (o: seq<Outcome>)
    requires slots >= 1
    ensures o == Outcomes(Start(slots, policy), accesses)
  {
    hide Ok, Mapped, Outcomes, After, Faulted, Chosen;
    var cache := new Cache(slots, policy);
    ghost var start := Start(slots, policy);
    o := [];
    RunNone(start);
    for i := 0 to |accesses|
      invariant fresh(cache) && cache.s == After(start, accesses[..i]) && o == Outcomes(start, accesses[..i])
    {
      OneMore(start, accesses[..i], accesses[i]);
      assert accesses[..i + 1] == accesses[..i] + [accesses[i]];
      ShapeOf(cache.s);
      if accesses[i] in Mapped(cache.s) {
        o := o + [Hit];
      } else {
        var v := cache.Fault(accesses[i]);
        o := o + [Miss(v)];
      }
    }
    assert accesses[..|accesses|] == accesses;
  }

  lemma RunNone(s: State)
    requires Ok(s)
    ensures Outcomes(s, []) == [] && After(s, []) == s
  {
  }
}
