// The lottery pass of CLab/xv6/kernel/proc_our.c: two walks over the process table,
// which is taken to be the same in both.

module Lottery {
  const WRAP := 0x1_0000_0000

  datatype State = RUNNABLE | RUNNING | OTHER

  datatype Proc = Proc(state: State, tickets: int)

  /** Tickets of the runnable processes in slots before n. */
  function Before(table: seq<Proc>, n: nat): int
    requires n <= |table|
  {
    if n == 0 then 0 else Before(table, n - 1) + Stake(table[n - 1])
  }

  function Stake(p: Proc): int {
    if p.state == RUNNABLE then p.tickets else 0
  }

  predicate TicketsOk(table: seq<Proc>) {
    forall p :: 0 <= p < |table| ==> table[p].tickets >= 0
  }

  lemma {:induction false} BeforeGrows(table: seq<Proc>, i: nat, j: nat)
    requires TicketsOk(table) && i <= j <= |table|
    ensures Before(table, i) <= Before(table, j)
    decreases j - i
  {
    if i < j {
      BeforeGrows(table, i, j - 1);
    }
  }

  /** The first walk. */
  method TotalTickets(table: seq<Proc>) returns (total: int)
    ensures total == Before(table, |table|)
  {
    total := 0;
    for p := 0 to |table|
      invariant total == Before(table, p)
    {
      if table[p].state == RUNNABLE {
        total := total + table[p].tickets;
      }
    }
  }

  /** The second walk: which processes it switches to, in order. Each comes back in a
      state of its own choice (after). */
  method Dispatch(table: seq<Proc>, winning: int, after: nat -> State) returns (ran: seq<nat>, left: seq<Proc>)
    requires TicketsOk(table) && 0 <= winning
    ensures |left| == |table|
    ensures forall p: nat :: p in ran <==> p < |table| && table[p].state == RUNNABLE && winning < Before(table, p + 1)
    ensures forall i, j :: 0 <= i < j < |ran| ==> ran[i] < ran[j]
    ensures winning < Before(table, |table|) ==> ran != []
    ensures ran != [] ==> ran[0] < |table| && Wins(table, ran[0], winning)
    ensures forall p: nat :: p < |table| ==> left[p] == if p in ran then table[p].(state := after(p)) else table[p]
  {
    var current := 0;
    ran, left := [], table;
    for p := 0 to |table|
      invariant current == Before(table, p) && |left| == |table|
      invariant forall q: nat :: q in ran <==> q < p && table[q].state == RUNNABLE && winning < Before(table, q + 1)
      invariant forall i, j :: 0 <= i < j < |ran| ==> ran[i] < ran[j]
      invariant if ran == [] then current <= winning
                else ran[0] < p && Wins(table, ran[0], winning) && Before(table, ran[0] + 1) <= current
      invariant forall q: nat :: q < |table| ==> left[q] == if q in ran then table[q].(state := after(q)) else table[q]
    {
      if left[p].state == RUNNABLE {
        current := current + left[p].tickets;
        if current > winning {
          forall i | 0 <= i < |ran| ensures ran[i] < p {
            assert ran[i] in ran;
          }
          left := left[p := left[p].(state := after(p))];
          ran := ran + [p];
        }
      }
    }
  }

  /** The winning tickets that make p the first to run. */
  predicate Wins(table: seq<Proc>, p: nat, winning: int)
    requires p < |table|
  {
    Before(table, p) <= winning < Before(table, p + 1)
  }

  ghost function Tickets(lo: int, hi: int): set<int> {
    set w | lo <= w < hi && Between(lo, w, hi)
  }

  predicate Between(lo: int, w: int, hi: int) {
    lo <= w < hi
  }

  lemma {:induction false} CountTickets(lo: int, hi: int)
    requires lo <= hi
    ensures |Tickets(lo, hi)| == hi - lo
    decreases hi - lo
  {
    if lo < hi {
      CountTickets(lo, hi - 1);
      assert Tickets(lo, hi) == Tickets(lo, hi - 1) + {hi - 1};
    } else {
      assert Tickets(lo, hi) == {};
    }
  }

  /** Exactly p->tickets of the winning tickets from 0 to the total make a runnable p the
      first, none a process that is not runnable; and every ticket makes some process so. */
  lemma FairShare(table: seq<Proc>, p: nat)
    requires TicketsOk(table) && p < |table|
    ensures Before(table, p) <= Before(table, p + 1)
    ensures var total := Before(table, |table|);
            (set w | 0 <= w < total && Wins(table, p, w)) == Tickets(Before(table, p), Before(table, p + 1)) &&
            |set w | 0 <= w < total && Wins(table, p, w)| == Stake(table[p])
    ensures forall q: nat, w :: q < |table| && Wins(table, p, w) && Wins(table, q, w) ==> p == q
  {
    BeforeGrows(table, 0, p);
    BeforeGrows(table, p + 1, |table|);
    CountTickets(Before(table, p), Before(table, p + 1));
    forall q: nat, w | q < |table| && Wins(table, p, w) && Wins(table, q, w) ensures p == q {
      if p < q { BeforeGrows(table, p + 1, q); }
      if q < p { BeforeGrows(table, q + 1, p); }
    }
  }

  // ------------------------------------------------------------------- rand

  /** One step of the generator: unsigned int arithmetic. */
  function NextSeed(seed: int): int {
    (seed * 1664525 + 1013904223) % WRAP
  }

  /** rand(): the low 31 bits. */
  function Rand(seed: int): int {
    NextSeed(seed) % 0x8000_0000
  }

  class Scheduler {
    var seed: int

    constructor ()
      ensures seed == 1
    {
      seed := 1;
    }

    /** One turn of scheduler(): the lottery's winner runs first, and after it every
        runnable process behind it; with no tickets nobody runs and nothing is drawn. */
    method Turn(table: seq<Proc>, after: nat -> State) returns (ran: seq<nat>, left: seq<Proc>)
      requires TicketsOk(table)
      modifies this
      ensures Before(table, |table|) == 0 ==> ran == [] && left == table && seed == old(seed)
      ensures Before(table, |table|) != 0 ==>
        seed == NextSeed(old(seed)) && ran != [] && ran[0] < |table| && table[ran[0]].state == RUNNABLE &&
        Wins(table, ran[0], Rand(old(seed)) % Before(table, |table|))
      ensures forall i, j :: 0 <= i < j < |ran| ==> ran[i] < ran[j]
      ensures ran != [] ==> forall q: nat :: q in ran <==> ran[0] <= q < |table| && table[q].state == RUNNABLE
      ensures |left| == |table| &&
        forall q: nat :: q < |table| ==> left[q] == if q in ran then table[q].(state := after(q)) else table[q]
    {
      BeforeGrows(table, 0, |table|);
      var total := TotalTickets(table);
      if total == 0 {
        return [], table;
      }
      seed := NextSeed(seed);
      var winning := seed % 0x8000_0000 % total;
      ran, left := Dispatch(table, winning, after);
      assert ran[0] in ran;
      forall q: nat ensures q in ran <==> ran[0] <= q < |table| && table[q].state == RUNNABLE {
        if q < |table| && ran[0] <= q {
          BeforeGrows(table, ran[0] + 1, q + 1);
        }
        if q in ran {
          var i :| 0 <= i < |ran| && ran[i] == q;
          assert i > 0 ==> ran[0] < ran[i];
        }
      }
    }
  }
}
