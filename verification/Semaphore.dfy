/**
 A first-come first-served counting semaphore: the one specification that both the command queue
 (`src/stores/commandStore.ts`) and the report limiter (`src/lib/reportLoader.ts`) are proved to meet.
 */
module Semaphore {

  /** Who holds a slot, who waits, and the history: everyone who asked, and everyone granted, in order. */
  datatype Sem = Sem(cap: int, holders: set<nat>, queue: seq<nat>, asked: seq<nat>, granted: seq<nat>)

  ghost function Start(cap: int): Sem {
    Sem(cap, {}, [], [], [])
  }

  ghost function Acquire(s: Sem, id: nat): Sem {
    if |s.holders| < s.cap then s.(holders := s.holders + {id}, asked := s.asked + [id], granted := s.granted + [id])
    else s.(queue := s.queue + [id], asked := s.asked + [id])
  }

  ghost function Release(s: Sem, id: nat): Sem {
    if s.queue == [] then s.(holders := s.holders - {id})
    else s.(holders := s.holders - {id} + {s.queue[0]}, queue := s.queue[1..], granted := s.granted + [s.queue[0]])
  }

  ghost predicate Distinct(s: seq<nat>) {
    forall i, j | 0 <= i < j < |s| :: s[i] != s[j]
  }

  /** Never more holders than slots, nobody waits while a slot is free, and grants follow the order of asking. */
  ghost predicate Fair(s: Sem) {
    && |s.holders| <= (if s.cap < 0 then 0 else s.cap)
    && (s.queue != [] ==> |s.holders| >= s.cap)
    && s.asked == s.granted + s.queue
    && Distinct(s.asked)
    && (forall id | id in s.holders :: id in s.granted)
  }

  lemma {:induction false} StartIsFair(cap: int)
    ensures Fair(Start(cap))
  {}

  lemma {:induction false} AcquireKeepsFair(s: Sem, id: nat)
    requires Fair(s) && id !in s.asked
    ensures Fair(Acquire(s, id))
  {
    assert s.queue == [] ==> s.granted + [id] + s.queue == s.asked + [id];
    assert s.granted + (s.queue + [id]) == s.asked + [id];
  }

  lemma {:induction false} ReleaseKeepsFair(s: Sem, id: nat)
    requires Fair(s) && id in s.holders
    ensures Fair(Release(s, id))
  {
    if s.queue != [] {
      var next := s.queue[0];
      assert s.asked[|s.granted|] == next;
      assert s.granted + [next] + s.queue[1..] == s.asked;
      assert forall i | 0 <= i < |s.granted| :: s.granted[i] == s.asked[i] && s.asked[i] != next;
      assert next !in s.holders;
    }
  }
}
