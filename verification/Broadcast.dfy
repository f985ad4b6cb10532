// src/server/broadcast_manager.cpp: the connected clients and delivery to them. Every
// method body between lock and unlock is one critical section.

module Broadcast {
  import opened ByteStrings
  import opened Ciphers
  import opened ClientTables
  import opened Messages
  import opened Sessions

  ghost predicate AllValid(sessions: seq<Session>)
    reads sessions, set s | s in sessions :: s.clientFd
  {
    forall s :: s in sessions ==> s.Valid()
  }

  class BroadcastManager {
    var clients: seq<Session>
    var byName: map<Bytes, Session>
    const cipher: Cipher

    constructor (cipher: Cipher)
      ensures Table() == Cleared() && this.cipher == cipher
    {
      clients, byName := [], map[];
      this.cipher := cipher;
    }

    ghost function Table(): Clients<Session>
      reads this
    {
      Clients(clients, byName)
    }

    method AddClient(s: Session)
      modifies this
      ensures Table() == Add(old(Table()), s, s.username)
    {
      clients := clients + [s];
      byName := byName[s.username := s];
    }

    method RemoveClient(s: Session)
      modifies this
      ensures Table() == Remove(old(Table()), s, s.username)
    {
      var kept := [];
      for i := 0 to |clients|
        invariant clients == old(clients) && byName == old(byName)
        invariant kept == Without(clients[..i], s)
      {
        assert clients[..i + 1][..i] == clients[..i];
        if clients[i] != s {
          kept := kept + [clients[i]];
        }
      }
      assert clients[..|clients|] == clients;
      clients := kept;
      if s.username in byName && byName[s.username] == s {
        byName := byName - {s.username};
      }
    }

    /** The locked part of broadcast: everyone active except sessions of the sender's name. */
    method Snapshot(sender: Bytes) returns (snapshot: seq<Session>)
      requires NoDup(clients)
      ensures NoDup(snapshot)
      ensures forall s :: s in snapshot <==> s in clients && s.active && s.username != sender
    {
      snapshot := [];
      for i := 0 to |clients|
        invariant NoDup(snapshot)
        invariant forall s :: s in snapshot <==> s in clients[..i] && s.active && s.username != sender
      {
        if clients[i].active && clients[i].username != sender {
          snapshot := snapshot + [clients[i]];
        }
      }
      assert clients[..|clients|] == clients;
    }

    method Broadcast(sender: Bytes, message: Bytes)
      requires NoDup(clients) && AllValid(clients)
      modifies (set s | s in clients)`active, (set s | s in clients)`sent
      ensures AllValid(clients)
      ensures forall s :: s in clients ==>
                if s.username == sender then Untouched(s)
                else Took(s, Xor(Frame(Bcast(sender, message)), cipher.key))
    {
      var plain := Serialise(Bcast(sender, message));
      var snapshot := Snapshot(sender);
      assert forall s :: s in snapshot <==> s in clients && old(s.active) && s.username != sender;
      SendEach(snapshot, plain);
    }

    /** The unlocked part: each frame is encrypted again for its recipient. */
    method SendEach(targets: seq<Session>, plain: Bytes)
      requires NoDup(targets) && AllValid(targets)
      modifies (set s | s in targets)`active, (set s | s in targets)`sent
      ensures forall s :: s in targets ==> s.Valid() && Took(s, Xor(plain, cipher.key))
    {
      for i := 0 to |targets|
        invariant AllValid(targets)
        invariant forall s :: s in targets[..i] ==> Took(s, Xor(plain, cipher.key))
        invariant forall s :: s in targets && s !in targets[..i] ==> Untouched(s)
      {
        var wire := cipher.Encrypt(plain);
        var s := targets[i];
        assert s !in targets[..i];
        var ok := s.SendMsg(wire);
      }
      assert targets[..|targets|] == targets;
    }

    /** Only the active session that the index gives for the name. */
    method SendPrivate(from: Bytes, to: Bytes, message: Bytes)
      requires forall u :: u in byName ==> byName[u].Valid()
      modifies (if to in byName then {byName[to]} else {})`active, (if to in byName then {byName[to]} else {})`sent
      ensures to in byName ==> byName[to].Valid()
      ensures to in byName ==>
                Took(byName[to], Xor(Frame(Bcast(from, "[PM from " + from + "]: " + message)), cipher.key))
    {
      if to !in byName || !byName[to].active {
        return;
      }
      var target := byName[to];
      var text := "[PM from " + from + "]: " + message;
      var plain := Serialise(Bcast(from, text));
      var wire := cipher.Encrypt(plain);
      var ok := target.SendMsg(wire);
    }

    method BroadcastToRecipients(sender: Bytes, message: Bytes, recipients: seq<Session>)
      requires NoDup(recipients) && AllValid(recipients)
      modifies (set s | s in recipients)`active, (set s | s in recipients)`sent
      ensures AllValid(recipients)
      ensures forall s :: s in recipients ==>
                if s.username == sender then Untouched(s)
                else Took(s, Xor(Frame(Bcast(sender, message)), cipher.key))
    {
      var plain := Serialise(Bcast(sender, message));
      var wire := cipher.Encrypt(plain);
      for i := 0 to |recipients|
        invariant AllValid(recipients)
        invariant forall s :: s in recipients[..i] ==> if s.username == sender then Untouched(s) else Took(s, wire)
        invariant forall s :: s in recipients && s !in recipients[..i] ==> Untouched(s)
      {
        var s := recipients[i];
        assert s !in recipients[..i] && Untouched(s);
        if s.active && s.username != sender {
          var ok := s.SendMsg(wire);
        }
      }
      assert recipients[..|recipients|] == recipients;
    }

    /** Closes every connected session that is still active and forgets them all. */
    method ShutdownAll()
      requires NoDup(clients) && AllValid(clients)
      requires forall s, t :: s in clients && t in clients && s != t ==> s.clientFd != t.clientFd
      modifies this, (set s | s in clients)`active, set s | s in clients :: s.clientFd
      ensures Table() == Cleared()
      ensures AllValid(old(clients))
      ensures forall s :: s in old(clients) ==> !s.active && (old(s.active) ==> s.Closed())
    {
      for i := 0 to |clients|
        invariant clients == old(clients) && AllValid(clients)
        invariant forall s :: s in clients[..i] ==> !s.active && (old(s.active) ==> s.Closed())
        invariant forall s :: s in clients && s !in clients[..i] ==> s.active == old(s.active)
      {
        var s := clients[i];
        assert s !in clients[..i];
        if s.active {
          assert s.clientFd in set s | s in old(clients) :: s.clientFd;
          s.CloseSession();
        }
      }
      assert clients[..|clients|] == clients;
      clients := [];
      byName := map[];
    }
  }
}
