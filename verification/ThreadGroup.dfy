// include/mpcc/util/thread_handler.h: threads that are joined once.

module Threads {
  import opened ByteStrings

  type Tid = nat

  /** One joinable thread. `joins` lists the calls to ::pthread_join. */
  class JoinableThread {
    var tid: Tid
    var started: bool
    var joins: seq<Tid>

    constructor ()
      ensures !started && joins == []
    {
      tid, started, joins := 0, false, [];
    }

    /** `created` is what ::pthread_create gives: a thread, or an error. A second start does nothing. */
    method Start(created: Option<Tid>) returns (ok: bool)
      modifies this
      ensures joins == old(joins) && ok == started
      ensures old(started) ==> started && tid == old(tid)
      ensures !old(started) ==> (started <==> created.Some?) && (started ==> tid == created.value)
    {
      if started {
        return true;
      }
      if created.None? {
        return false;
      }
      tid, started := created.value, true;
      return true;
    }

    method Join()
      modifies this
      ensures !started
      ensures joins == old(joins) + if old(started) then [old(tid)] else []
    {
      if !started {
        return;
      }
      joins := joins + [tid];
      tid, started := 0, false;
    }
  }

  /** The threads to wait for. `joins` lists the calls to ::pthread_join. */
  class ThreadGroup {
    var tids: seq<Tid>
    var joins: seq<Tid>

    constructor ()
      ensures Value() == Group([], [])
    {
      tids, joins := [], [];
    }

    ghost function Value(): Group
      reads this
    {
      Group(tids, joins)
    }

    method Add(tid: Tid)
      modifies this
      ensures Value() == After(old(Value()), Adding(tid))
    {
      tids := tids + [tid];
    }

    /** Takes the list away under the lock, so that no other call joins the same threads. */
    method JoinAll()
      modifies this
      ensures Value() == After(old(Value()), JoiningAll)
    {
      var copy := tids;
      tids := [];
      for i := 0 to |copy|
        invariant tids == [] && joins == old(joins) + copy[..i]
      {
        joins := joins + [copy[i]];
        assert copy[..i + 1] == copy[..i] + [copy[i]];
      }
      assert copy[..|copy|] == copy;
    }
  }

  datatype Group = Group(tids: seq<Tid>, joins: seq<Tid>)

  datatype Use = Adding(tid: Tid) | JoiningAll

  function After(g: Group, use: Use): Group {
    match use
    case Adding(tid) => g.(tids := g.tids + [tid])
    case JoiningAll => Group([], g.joins + g.tids)
  }

  function AfterAll(uses: seq<Use>): Group {
    if uses == [] then Group([], []) else After(AfterAll(uses[..|uses| - 1]), uses[|uses| - 1])
  }

  /** The threads added, in order. */
  function Added(uses: seq<Use>): seq<Tid> {
    if uses == [] then []
    else
      var earlier, last := Added(uses[..|uses| - 1]), uses[|uses| - 1];
      if last.Adding? then earlier + [last.tid] else earlier
  }

  /** However adding and joining alternate, no thread is lost or joined twice. */
  lemma {:induction false} NoThreadIsLost(uses: seq<Use>)
    ensures AfterAll(uses).joins + AfterAll(uses).tids == Added(uses)
  {
    if uses != [] {
      NoThreadIsLost(uses[..|uses| - 1]);
    }
  }

  /** After a last join_all every thread ever added was joined once, in the order of arrival. */
  lemma EachIsJoinedOnce(uses: seq<Use>)
    ensures AfterAll(uses + [JoiningAll]) == Group([], Added(uses))
  {
    NoThreadIsLost(uses);
    assert (uses + [JoiningAll])[..|uses|] == uses;
  }
}
