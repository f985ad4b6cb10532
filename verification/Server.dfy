// src/server/server.cpp: accepting clients and shutting down.

module ServerProgram {
  import opened Broadcast
  import opened ByteStrings
  import opened ClientTables
  import opened Sessions
  import opened Threads

  /** One return of ::accept: an error, or a client and what ::pthread_create gives for it. */
  datatype Accept = NoClient | Client(fd: nat, created: Option<Tid>)

  /** A client that got its thread. */
  datatype Spawned = Spawned(tid: Tid, fd: nat)

  function With(spawned: seq<Spawned>, a: Accept): seq<Spawned> {
    if a.Client? && a.created.Some? then spawned + [Spawned(a.created.value, a.fd)] else spawned
  }

  function Started(accepts: seq<Accept>): seq<Spawned> {
    if accepts == [] then [] else With(Started(accepts[..|accepts| - 1]), accepts[|accepts| - 1])
  }

  function Tids(spawned: seq<Spawned>): seq<Tid> {
    if spawned == [] then [] else Tids(spawned[..|spawned| - 1]) + [spawned[|spawned| - 1].tid]
  }

  lemma StartedOneMore(accepts: seq<Accept>, i: nat)
    requires i < |accepts|
    ensures Started(accepts[..i + 1]) == With(Started(accepts[..i]), accepts[i])
  {
    assert accepts[..i + 1][..i] == accepts[..i];
  }

  lemma TidsOneMore(spawned: seq<Spawned>, last: Spawned)
    ensures Tids(spawned + [last]) == Tids(spawned) + [last.tid]
  {
    assert (spawned + [last])[..|spawned|] == spawned;
  }

  /** Each client that gets a thread is started, nobody else is, and they stay in order. */
  lemma {:induction false} StartedInOrder(before: seq<Accept>, after: seq<Accept>)
    ensures Started(before + after) == Started(before) + Started(after)
  {
    if after == [] {
      assert before + after == before && Started(before) + [] == Started(before);
    } else {
      var n := |after| - 1;
      assert (before + after)[..|before| + n] == before + after[..n];
      StartedInOrder(before, after[..n]);
    }
  }

  lemma StartedAlone(fd: nat, tid: Tid)
    ensures Started([NoClient]) == [] && Started([Client(fd, None)]) == []
    ensures Started([Client(fd, Some(tid))]) == [Spawned(tid, fd)]
  {
    assert forall a: Accept :: [a][..0] == [];
  }

  lemma {:induction false} TidsInOrder(spawned: seq<Spawned>, k: nat)
    requires k < |spawned|
    ensures |Tids(spawned)| == |spawned| && Tids(spawned)[k] == spawned[k].tid
  {
    var n := |spawned| - 1;
    if n > 0 {
      TidsInOrder(spawned[..n], if k < n then k else 0);
    }
  }

  /** Thread k runs the handler of session k, which owns the accepted descriptor. */
  ghost predicate OwnedBy(sessions: seq<Session>, spawned: seq<Spawned>)
    reads sessions, set s | s in sessions :: s.clientFd
  {
    && |sessions| == |spawned|
    && (forall k :: 0 <= k < |sessions| ==>
          && sessions[k].Valid() && sessions[k].active && !sessions[k].usernameSet && sessions[k].Open()
          && sessions[k].peer == spawned[k].fd)
    && (forall j, k :: 0 <= j < k < |sessions| ==>
          sessions[j] != sessions[k] && sessions[j].clientFd != sessions[k].clientFd)
  }

  lemma OwnedOneMore(sessions: seq<Session>, spawned: seq<Spawned>, session: Session, last: Spawned)
    requires OwnedBy(sessions, spawned)
    requires session.Valid() && session.active && !session.usernameSet && session.Open() && session.peer == last.fd
    requires forall k :: 0 <= k < |sessions| ==>
               sessions[k] != session && sessions[k].clientFd != session.clientFd
    ensures OwnedBy(sessions + [session], spawned + [last])
  {
  }

  class Server {
    const broadcast: BroadcastManager
    const threads: ThreadGroup
    const serverFd: UniqueFd
    var running: bool

    constructor (broadcast: BroadcastManager, threads: ThreadGroup, serverFd: UniqueFd)
      ensures this.broadcast == broadcast && this.threads == threads && this.serverFd == serverFd && !running
    {
      this.broadcast, this.threads, this.serverFd, running := broadcast, threads, serverFd, false;
    }

    /** A session and a thread for one accepted client; the thread is tracked once it exists. */
    method AcceptOne(a: Accept, sessions: seq<Session>, ghost spawned: seq<Spawned>, ghost tids: seq<Tid>)
      returns (sessions': seq<Session>)
      requires OwnedBy(sessions, spawned) && threads.tids == tids + Tids(spawned)
      modifies threads
      ensures threads.tids == tids + Tids(With(spawned, a)) && threads.joins == old(threads.joins)
      ensures OwnedBy(sessions', With(spawned, a)) && sessions <= sessions' && fresh(sessions'[|sessions|..])
    {
      sessions' := sessions;
      if a.Client? {
        var session := new Session(a.fd);
        if a.created.Some? {
          ghost var last := Spawned(a.created.value, a.fd);
          threads.Add(a.created.value);
          TidsOneMore(spawned, last);
          OwnedOneMore(sessions, spawned, session, last);
          assert With(spawned, a) == spawned + [last];
          sessions' := sessions + [session];
        }
      }
    }

    /** Until `running` is cleared, which happens when these returns are used up. */
    method AcceptLoop(accepts: seq<Accept>) returns (sessions: seq<Session>)
      modifies threads, this`running
      ensures threads.Value() == Group(old(threads.tids) + Tids(Started(accepts)), old(threads.joins))
      ensures fresh(sessions) && OwnedBy(sessions, Started(accepts))
    {
      running := true;
      sessions := [];
      for i := 0 to |accepts|
        invariant threads.tids == old(threads.tids) + Tids(Started(accepts[..i]))
        invariant threads.joins == old(threads.joins)
        invariant fresh(sessions) && OwnedBy(sessions, Started(accepts[..i]))
      {
        StartedOneMore(accepts, i);
        var earlier := sessions;
        sessions := AcceptOne(accepts[i], earlier, Started(accepts[..i]), old(threads.tids));
        assert sessions == earlier + sessions[|earlier|..];
      }
      assert accepts[..|accepts|] == accepts;
    }

    /** Closes all clients, then the listening socket, then waits for every thread. */
    method Shutdown()
      requires NoDup(broadcast.clients) && AllValid(broadcast.clients)
      requires forall s, t :: s in broadcast.clients && t in broadcast.clients && s != t ==> s.clientFd != t.clientFd
      requires forall s :: s in broadcast.clients ==> s.clientFd != serverFd
      modifies this`running, broadcast, threads, serverFd
      modifies (set s | s in broadcast.clients)`active, set s | s in broadcast.clients :: s.clientFd
      ensures !running && broadcast.Table() == Cleared()
      ensures forall s :: s in old(broadcast.clients) ==> s.Valid() && !s.active && (old(s.active) ==> s.Closed())
      ensures serverFd.fd < 0
      ensures serverFd.closed == old(serverFd.closed) + if old(serverFd.fd) >= 0 then [old(serverFd.fd)] else []
      ensures threads.Value() == After(old(threads.Value()), JoiningAll)
    {
      running := false;
      broadcast.ShutdownAll();
      if serverFd.fd >= 0 {
        serverFd.Reset();
      }
      threads.JoinAll();
    }
  }
}
