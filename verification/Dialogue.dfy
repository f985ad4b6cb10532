// The server's side of authentication on its own: what is said to a client whose bytes are
// these and whose registry file is that (src/server/client_handler.cpp:113-202, 331-352).

module Dialogue {
  import opened AuthProtocol
  import opened ByteStrings
  import opened Ciphers
  import opened FileIo
  import Registry
  import opened Streams

  function StepsLeft(server: Server): nat {
    if InTime(server) && 0 <= ServerLeft(server) then ServerLeft(server) else 0
  }

  /** The registry's verdict, and its file afterwards; disks[k] is how the disk treats attempt k. */
  function Verdict(key: Byte, server: Server, text: Bytes, disks: seq<Disk>): (bool, Bytes) {
    match server
    case Decide(k, signUp, name, password) =>
      if signUp then Registry.Registered(text, name, Xor(password, key), if k < |disks| then disks[k] else Healthy)
      else (Registry.Authenticated(text, name, Xor(password, key)), text)
    case _ => (false, text)
  }

  datatype Dialogue = Dialogue(end: State, text: Bytes)

  /** The server's steps, one after the other, until it is in the chat or has given up. */
  function Converse(s: State, text: Bytes, disks: seq<Disk>): Dialogue
    decreases StepsLeft(s.server)
  {
    if !InTime(s.server) then Dialogue(s, text)
    else
      var (accepted, text') := Verdict(s.key, s.server, text, disks);
      ServerGetsOn(s, accepted);
      Converse(ServerNext(s, accepted), text', disks)
  }

  // Converse by the kind of step, for a server that has said `out` and has `arrivals` to read.

  function At(key: Byte, server: Server, arrivals: seq<Arrival>, out: Bytes): State {
    State(key, server, AtMenu(0), arrivals, Arriving(out))
  }

  function Line(key: Byte, line: Bytes): Bytes {
    Xor(line + "\n", key)
  }

  lemma Says(key: Byte, server: Server, arrivals: seq<Arrival>, out: Bytes, text: Bytes, disks: seq<Disk>)
    requires InTime(server) && ServerSendsNow(server)
    ensures Converse(At(key, server, arrivals, out), text, disks) ==
            Converse(At(key, AfterSending(server), arrivals, out + Line(key, SaidBy(server))), text, disks)
  {
    ArrivingAppend(out, Line(key, SaidBy(server)));
  }

  lemma Hears(key: Byte, server: Server, arrivals: seq<Arrival>, out: Bytes, text: Bytes, disks: seq<Disk>)
    requires InTime(server) && ServerReads(server)
    ensures var got := ReadLine(key, arrivals);
            Converse(At(key, server, arrivals, out), text, disks) ==
            Converse(At(key, AfterHearing(server, got.line), got.rest, out), text, disks)
  {
  }

  lemma Decides(key: Byte, server: Server, arrivals: seq<Arrival>, out: Bytes, text: Bytes, disks: seq<Disk>)
    requires InTime(server) && server.Decide?
    ensures var (accepted, text') := Verdict(key, server, text, disks);
            Converse(At(key, server, arrivals, out), text, disks) ==
            Converse(At(key, AfterVerdict(server.attempt, server.signUp, server.name, accepted), arrivals, out),
                     text', disks)
  {
  }

  lemma Lists(key: Byte, server: Server, arrivals: seq<Arrival>, out: Bytes, text: Bytes, disks: seq<Disk>)
    requires InTime(server) && server.List?
    ensures Converse(At(key, server, arrivals, out), text, disks) ==
            Converse(At(key, SendOk(server.attempt, server.signUp, server.name), arrivals, out), text, disks)
  {
  }

  lemma IsOver(key: Byte, server: Server, arrivals: seq<Arrival>, out: Bytes, text: Bytes, disks: seq<Disk>)
    requires server.Chat? || server.GaveUp?
    ensures Converse(At(key, server, arrivals, out), text, disks) == Dialogue(At(key, server, arrivals, out), text)
  {
  }

  /** What the server has said stays said. */
  lemma {:induction false} ConverseExtends(s: State, text: Bytes, disks: seq<Disk>)
    ensures s.toClient <= Converse(s, text, disks).end.toClient
    decreases StepsLeft(s.server)
  {
    if InTime(s.server) {
      var (accepted, text') := Verdict(s.key, s.server, text, disks);
      ServerGetsOn(s, accepted);
      ConverseExtends(ServerNext(s, accepted), text', disks);
    }
  }
}
