// Sign-up and sign-in as a handler performs them (src/server/client_handler.cpp:133-202,
// 310-325), and what the registry file promises over every run of the server.

module Accounts {
  import opened ByteStrings
  import opened Ciphers
  import opened FileIo
  import opened Registry

  const MAX_USERNAME_LEN := 64
  const MAX_PASS_LEN := 128
  const MAX_AUTH_ATTEMPTS := 3

  /** std::isalnum in the C locale, or '_'. */
  predicate IsNameByte(c: Byte) {
    'a' <= c <= 'z' || 'A' <= c <= 'Z' || '0' <= c <= '9' || c == '_'
  }

  predicate ValidUsername(u: Bytes) {
    0 < |u| <= MAX_USERNAME_LEN && forall i :: 0 <= i < |u| ==> IsNameByte(u[i])
  }

  predicate ValidPassword(p: Bytes) {
    0 < |p| <= MAX_PASS_LEN && ':' !in p
  }

  method ValidateUsername(u: Bytes) returns (ok: bool)
    ensures ok <==> ValidUsername(u)
    ensures ok <==> 1 <= |u| <= 64 && forall c :: c in u ==>
                      'a' <= c <= 'z' || 'A' <= c <= 'Z' || '0' <= c <= '9' || c == '_'
  {
    if u == [] || |u| > MAX_USERNAME_LEN {
      return false;
    }
    for i := 0 to |u|
      invariant forall k :: 0 <= k < i ==> IsNameByte(u[k])
    {
      if !IsNameByte(u[i]) {
        assert u[i] in u;
        return false;
      }
    }
    assert forall c :: c in u ==> IsNameByte(c);
    return true;
  }

  method ValidatePassword(p: Bytes) returns (ok: bool)
    ensures ok <==> ValidPassword(p)
    ensures ok <==> 1 <= |p| <= 128 && ':' !in p
  {
    if p == [] || |p| > MAX_PASS_LEN {
      return false;
    }
    if Find(p, ':') != |p| {
      return false;
    }
    return true;
  }

  /** One handler's use of the registry; the mutex serialises them all. */
  datatype Request =
    | SignUp(name: Bytes, password: Bytes, disk: Disk)
    | SignIn(name: Bytes, password: Bytes)
    | Restart

  /** The answer, and the file text afterwards. */
  function Serve(key: Byte, text: Bytes, request: Request): (bool, Bytes) {
    match request
    case SignUp(name, password, disk) =>
      if ValidUsername(name) && ValidPassword(password) then Registered(text, name, Xor(password, key), disk)
      else (false, text)
    case SignIn(name, password) =>
      (name != [] && password != [] && Authenticated(text, name, Xor(password, key)), text)
    case Restart => (false, text)
  }

  datatype Outcome = Outcome(text: Bytes, replies: seq<bool>)

  /** Serves a whole run, starting from a file with that text. */
  function Serving(key: Byte, text: Bytes, run: seq<Request>): (o: Outcome)
    ensures |o.replies| == |run|
  {
    if run == [] then Outcome(text, [])
    else
      var before := Serving(key, text, run[..|run| - 1]);
      var (ok, text') := Serve(key, before.text, run[|run| - 1]);
      Outcome(text', before.replies + [ok])
  }

  /** The bigger map has every user of the smaller one, with the same password. */
  predicate Grows(users: Users, users': Users) {
    forall name :: name in users ==> name in users' && users'[name] == users[name]
  }

  /** The account that a valid sign-up asks for. */
  predicate Holds(users: Users, request: Request, key: Byte)
    requires request.SignUp?
  {
    && ValidUsername(request.name) && ValidPassword(request.password)
    && request.name in users && users[request.name] == Xor(request.password, key)
  }

  /** One request keeps the file well formed and every account in it. */
  lemma ServeRefines(key: Byte, text: Bytes, request: Request)
    requires WellFormed(text)
    ensures var (ok, text') := Serve(key, text, request);
            && WellFormed(text')
            && Grows(UsersIn(text), UsersIn(text'))
            && (request.SignUp? && ok ==> request.name !in UsersIn(text) && Holds(UsersIn(text'), request, key))
            && (request.SignUp? && ValidUsername(request.name) && ValidPassword(request.password) ==>
                  (ok <==> request.name !in UsersIn(text) && Written(request.disk, |RecordsOf(text)| + 1)))
            && (request.SignIn? ==>
                  (ok <==>
                     && request.name != [] && request.password != []
                     && request.name in UsersIn(text) && UsersIn(text)[request.name] == Xor(request.password, key)))
            && (!ok || request.SignIn? ==> text' == text)
  {
    if request.SignUp? && ValidUsername(request.name) && ValidPassword(request.password) {
      RegisterRefines(text, request.name, Xor(request.password, key), request.disk);
    } else if request.SignIn? {
      AuthenticateRefines(text, request.name, Xor(request.password, key));
    }
  }

  /** What an accepted sign-up i promises about every later request j for the same name. */
  predicate Honours(first: Request, later: Request, reply: bool)
    requires first.SignUp?
  {
    match later
    case SignUp(name, _, _) => name == first.name ==> !reply
    case SignIn(name, password) => name == first.name ==> (reply <==> password == first.password)
    case Restart => true
  }

  /** Every accepted sign-up is in the map, with its password. */
  ghost predicate Recorded(key: Byte, run: seq<Request>, replies: seq<bool>, users: Users)
    requires |replies| == |run|
  {
    forall i :: 0 <= i < |run| && run[i].SignUp? && replies[i] ==> Holds(users, run[i], key)
  }

  /** Every accepted sign-up is honoured by all requests after it. */
  ghost predicate Stable(run: seq<Request>, replies: seq<bool>)
    requires |replies| == |run|
  {
    forall i, j :: 0 <= i < j < |run| && run[i].SignUp? && replies[i] ==> Honours(run[i], run[j], replies[j])
  }

  lemma ServeHonours(key: Byte, text: Bytes, first: Request, request: Request)
    requires WellFormed(text) && first.SignUp?
    requires Holds(UsersIn(text), first, key)
    ensures Honours(first, request, Serve(key, text, request).0)
  {
    ServeRefines(key, text, request);
    if request.SignIn? {
      AuthenticateRefines(text, request.name, Xor(request.password, key));
      XorInjective(request.password, first.password, key);
    }
  }

  /**
   * In every run over any restarts and failing writes: a name is registered at most once, and
   * from then on it signs in with exactly the password of that registration.
   */
  lemma {:induction false} AccountsAreStable(key: Byte, text: Bytes, run: seq<Request>)
    requires WellFormed(text)
    ensures WellFormed(Serving(key, text, run).text)
    ensures Recorded(key, run, Serving(key, text, run).replies, UsersIn(Serving(key, text, run).text))
    ensures Stable(run, Serving(key, text, run).replies)
  {
    if run != [] {
      var earlier, last := run[..|run| - 1], run[|run| - 1];
      var before := Serving(key, text, earlier);
      AccountsAreStable(key, text, earlier);
      ServeExtends(key, before.text, earlier, before.replies, last);
      assert earlier + [last] == run;
    }
  }

  lemma StableExtends(run: seq<Request>, replies: seq<bool>, request: Request, ok: bool)
    requires |replies| == |run| && Stable(run, replies)
    requires forall i :: 0 <= i < |run| && run[i].SignUp? && replies[i] ==> Honours(run[i], request, ok)
    ensures Stable(run + [request], replies + [ok])
  {
  }

  lemma ServeExtends(key: Byte, text: Bytes, run: seq<Request>, replies: seq<bool>, request: Request)
    requires |replies| == |run| && WellFormed(text)
    requires Recorded(key, run, replies, UsersIn(text)) && Stable(run, replies)
    ensures var (ok, text') := Serve(key, text, request);
            && WellFormed(text')
            && Recorded(key, run + [request], replies + [ok], UsersIn(text'))
            && Stable(run + [request], replies + [ok])
  {
    ServeRefines(key, text, request);
    var (ok, text') := Serve(key, text, request);
    forall i | 0 <= i < |run| && run[i].SignUp? && replies[i]
      ensures Honours(run[i], request, ok) && Holds(UsersIn(text'), run[i], key)
    {
      ServeHonours(key, text, run[i], request);
    }
    StableExtends(run, replies, request, ok);
  }
}
