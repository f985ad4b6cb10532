// include/mpcc/core/unique_fd.h and src/core/session.cpp: one client connection.

module Sessions {
  import opened ByteStrings

  /** An owned descriptor. `closed` lists the descriptors it has handed to ::close. */
  class UniqueFd {
    var fd: int
    var closed: seq<int>

    constructor (fd: int)
      ensures this.fd == fd && closed == []
    {
      this.fd := fd;
      closed := [];
    }

    method Reset(newFd: int := -1)
      modifies this
      ensures fd == newFd
      ensures closed == old(closed) + if old(fd) >= 0 then [old(fd)] else []
    {
      if fd >= 0 {
        closed := closed + [fd];
      }
      fd := newFd;
    }

    /** Gives the descriptor away unclosed. */
    method Release() returns (given: int)
      modifies this
      ensures given == old(fd) && fd == -1 && closed == old(closed)
    {
      given := fd;
      fd := -1;
    }

    /** Move assignment: what was owned is closed, what the other owned changes hands unclosed. */
    method MoveFrom(other: UniqueFd)
      modifies this, other
      ensures other == this ==> fd == old(fd) && closed == old(closed)
      ensures other != this ==> fd == old(other.fd) && other.fd == -1 && other.closed == old(other.closed)
      ensures other != this ==> closed == old(closed) + if old(fd) >= 0 then [old(fd)] else []
    {
      if this == other {
        return;
      }
      Reset();
      fd := other.fd;
      other.fd := -1;
    }
  }

  const UNAUTHENTICATED: Bytes := "(unauthenticated)"

  /** Sends of `wire` in all: an inactive session takes nothing, and one that does not take all is inactive. */
  predicate Got(active: bool, sent: Bytes, active': bool, sent': Bytes, wire: Bytes) {
    if active then sent <= sent' <= sent + wire && (active' <==> sent' == sent + wire)
    else sent' == sent && !active'
  }

  lemma GotMore(active: bool, sent: Bytes, active': bool, sent': Bytes, active'': bool, sent'': Bytes,
    wire: Bytes, more: Bytes)
    requires Got(active, sent, active', sent', wire) && Got(active', sent', active'', sent'', more)
    ensures Got(active, sent, active'', sent'', wire + more)
  {
    assert sent + wire + more == sent + (wire + more);
  }

  lemma GotNothing(active: bool, sent: Bytes)
    ensures Got(active, sent, active, sent, [])
  {
    assert sent + [] == sent;
  }

  /** What s was sent since the old state, in one message or several. */
  twostate predicate Took(s: Session, wire: Bytes)
    reads s
  {
    Got(old(s.active), old(s.sent), s.active, s.sent, wire)
  }

  twostate predicate Untouched(s: Session)
    reads s
  {
    s.sent == old(s.sent) && s.active == old(s.active)
  }

  class Session {
    const clientFd: UniqueFd
    const peer: int          // the accepted descriptor
    var username: Bytes
    var usernameSet: bool
    var active: bool
    var sent: Bytes          // what the kernel has taken from ::send so far

    /** The descriptor is either still owned and never closed, or closed exactly once. */
    ghost predicate Valid()
      reads this, clientFd
    {
      && 0 <= peer
      && (Open() || Closed())
      && (active ==> Open())
      && (!usernameSet ==> username == UNAUTHENTICATED)
    }

    ghost predicate Open()
      reads this, clientFd
    {
      clientFd.fd == peer && clientFd.closed == []
    }

    ghost predicate Closed()
      reads this, clientFd
    {
      clientFd.fd == -1 && clientFd.closed == [peer]
    }

    constructor (fd: int)
      requires 0 <= fd
      ensures Valid() && fresh(clientFd) && peer == fd
      ensures active && Open() && !usernameSet && sent == []
    {
      clientFd := new UniqueFd(fd);
      peer := fd;
      username := UNAUTHENTICATED;
      usernameSet := false;
      active := true;
      sent := [];
    }

    /** Writes until everything is taken; the first failed write clears `active` for good. */
    method SendMsg(msg: Bytes) returns (ok: bool)
      requires Valid()
      modifies this`active, this`sent
      ensures Valid()
      ensures Took(this, msg) && ok == active
      ensures ok ==> sent == old(sent) + msg
    {
      if !active {
        return false;
      }
      var total := 0;
      while total < |msg|
        invariant 0 <= total <= |msg|
        invariant sent == old(sent) + msg[..total]
        invariant active == old(active) && Valid()
      {
        // ::send may take any part of the rest, or fail.
        var n: int :| n <= |msg| - total;
        if n <= 0 {
          active := false;
          return false;
        }
        sent := sent + msg[total..total + n];
        assert sent == old(sent) + msg[..total + n];
        total := total + n;
      }
      assert msg[..total] == msg;
      return true;
    }

    /** The compare-and-swap on `active` lets only one call reach the descriptor. */
    method CloseSession()
      requires Valid()
      modifies this`active, clientFd
      ensures Valid() && !active
      ensures old(active) ==> Closed()
      ensures !old(active) ==> clientFd.fd == old(clientFd.fd) && clientFd.closed == old(clientFd.closed)
    {
      if active {
        active := false;
        clientFd.Reset();
      }
    }

    /** `~Session`: close_session, then `~UniqueFd` for a descriptor a failed send left open. */
    method Destroy()
      requires Valid()
      modifies this`active, clientFd
      ensures !active && clientFd.closed == [peer] && clientFd.fd == -1
    {
      CloseSession();
      clientFd.Reset();
    }

    /** Only the first name sticks. */
    method SetUsername(name: Bytes)
      requires Valid()
      modifies this`username, this`usernameSet
      ensures Valid() && usernameSet
      ensures username == if old(usernameSet) then old(username) else name
    {
      if !usernameSet {
        username := name;
        usernameSet := true;
      }
    }
  }
}
