/**
 Whose session it is. Over any requests of one client, with the tracker changed in any way
 between them by other sessions, the peer link and replays, a session belongs to a user
 exactly while that user's login is the last one that succeeded and no logout has followed.
 */
module Identity {
  import opened Bytes
  import opened Codec
  import opened Tracker
  import opened Replay
  import opened Wire
  import opened Sync
  import opened Session
  import Net

  /** One request, and the database it finds. */
  datatype Visit = Visit(db: Db, kind: U16, payload: Str)

  function Handles(v: View, x: Visit): Handled { Handle(v, x.db, x.kind, x.payload) }

  /** The session after its requests; it starts without a user. */
  function ViewAfter(ip: Str, xs: seq<Visit>): View {
    if xs == [] then View([], ip, 0) else Handles(ViewAfter(ip, xs[..|xs| - 1]), xs[|xs| - 1]).view
  }

  /** The user and the port of a login that succeeds. */
  function Admitted(ip: Str, x: Visit): Option<(Str, U16)> {
    if x.kind != MSG_LOGIN then None
    else match ParseLogin(x.payload)
      case Fail => None
      case Got(p, _) => if Login(x.db, p.0, p.1, ip, p.2).st == ST_OK then Some((p.0, p.2)) else None
  }

  /** The request ends what an earlier login began. */
  predicate Ends(ip: Str, x: Visit) { x.kind == MSG_LOGOUT || Admitted(ip, x).Some? }

  /** Request i logged `u` in with this port, and no logout or other login has succeeded since. */
  ghost predicate InForce(ip: Str, xs: seq<Visit>, i: nat, u: Str, port: U16) {
    && i < |xs| && Admitted(ip, xs[i]) == Some((u, port))
    && forall j | i < j < |xs| :: !Ends(ip, xs[j])
  }

  /** One request changes the session only by a login that succeeds or a logout. */
  lemma ViewStep(v: View, x: Visit)
    ensures Handles(v, x).view.ip == v.ip
    ensures Admitted(v.ip, x).Some? ==>
      Handles(v, x).view == View(Admitted(v.ip, x).value.0, v.ip, Admitted(v.ip, x).value.1)
    ensures !Ends(v.ip, x) ==> Handles(v, x).view == v
    ensures x.kind == MSG_LOGOUT ==> Handles(v, x).view == v.(user := [])
  {
    hide Exec, Login, Logout, ParseRequest, LogPayload, ParseLogin, QueryReply;
  }

  lemma {:induction false} IpStays(ip: Str, xs: seq<Visit>)
    ensures ViewAfter(ip, xs).ip == ip
  {
    hide Handles;
    if xs != [] {
      IpStays(ip, xs[..|xs| - 1]);
      ViewStep(ViewAfter(ip, xs[..|xs| - 1]), xs[|xs| - 1]);
    }
  }

  lemma InForceSnoc(ip: Str, xs: seq<Visit>, i: nat, u: Str, port: U16)
    requires xs != [] && i < |xs| - 1
    ensures InForce(ip, xs, i, u, port) <==> InForce(ip, xs[..|xs| - 1], i, u, port) && !Ends(ip, xs[|xs| - 1])
  {
    hide Admitted, Ends;
    var before := xs[..|xs| - 1];
    assert before[i] == xs[i];
    if InForce(ip, xs, i, u, port) {
      forall j | i < j < |before| ensures !Ends(ip, before[j]) { assert before[j] == xs[j]; }
    }
    if InForce(ip, before, i, u, port) && !Ends(ip, xs[|xs| - 1]) {
      forall j | i < j < |xs| ensures !Ends(ip, xs[j]) {
        if j < |before| { assert before[j] == xs[j]; }
      }
    }
  }

  /** The session is this user's, with this port, exactly when one of its logins is in force. */
  lemma {:induction false} SessionIsIff(ip: Str, xs: seq<Visit>, u: Str, port: U16)
    requires u != []
    ensures ViewAfter(ip, xs) == View(u, ip, port) <==> exists i: nat :: InForce(ip, xs, i, u, port)
  {
    hide Admitted, Handles;
    if xs != [] {
      var n := |xs| - 1;
      var before, x := xs[..n], xs[n];
      SessionIsIff(ip, before, u, port);
      IpStays(ip, before);
      ViewStep(ViewAfter(ip, before), x);
      forall i: nat | i < n
        ensures InForce(ip, xs, i, u, port) <==> InForce(ip, before, i, u, port) && !Ends(ip, x)
      {
        InForceSnoc(ip, xs, i, u, port);
      }
      if Admitted(ip, x) == Some((u, port)) { assert InForce(ip, xs, n, u, port); }
      hide ViewAfter;
      if i: nat :| InForce(ip, before, i, u, port) && !Ends(ip, x) { assert InForce(ip, xs, i, u, port); }
    }
  }

  // ----- in whose name operations run ---------------------------------------

  /** The user on whose behalf an operation runs. */
  function Actor(c: Cmd): Str { if c.CmdAcceptRequest? then c.owner else c.uid }

  lemma ActorIsUser(v: View, kind: U16, payload: Str)
    requires Replicated(kind) && kind != MSG_CREATE_USER
    requires ParseRequest(kind, payload, v.user, v.ip, v.port).Got?
    ensures var c := ParseRequest(kind, payload, v.user, v.ip, v.port).value;
      && Actor(c) == v.user
      && (c.CmdUpload? || c.CmdHavePieces? ==> c.ip == v.ip && c.port == v.port)
  {
    hide ParseStr, ParseTwo, ParseThree, ParseUpload;
  }

  /**
   Whatever is logged, creating an account aside, runs and is logged in the name of a user with a
   login in force; what it publishes as an address is the session's and the port of that login.
   */
  lemma LoggedInName(ip: Str, xs: seq<Visit>, x: Visit)
    requires Handles(ViewAfter(ip, xs), x).logged.Some? && x.kind != MSG_CREATE_USER
    ensures var v := ViewAfter(ip, xs);
      && Replicated(x.kind) && ParseRequest(x.kind, x.payload, v.user, v.ip, v.port).Got?
      && var c := ParseRequest(x.kind, x.payload, v.user, v.ip, v.port).value;
      && Actor(c) != [] && (exists i: nat :: InForce(ip, xs, i, Actor(c), v.port))
      && (c.CmdUpload? || c.CmdHavePieces? ==> c.ip == ip && c.port == v.port)
  {
    var v := ViewAfter(ip, xs);
    LoggedIff(v, x.db, x.kind, x.payload);
    IpStays(ip, xs);
    LoggedHasUser(v, x);
    hide Handles, Handle, ParseRequest, ViewAfter, InForce;
    ActorIsUser(v, x.kind, x.payload);
    SessionIsIff(ip, xs, v.user, v.port);
  }

  lemma LoggedHasUser(v: View, x: Visit)
    requires Handles(v, x).logged.Some? && x.kind != MSG_CREATE_USER && Replicated(x.kind)
    ensures v.user != [] && ParseRequest(x.kind, x.payload, v.user, v.ip, v.port).Got?
  {
    hide Exec, ParseRequest, LogPayload;
  }

  /** Without a login in force, everything but create_user and login is turned away. */
  lemma StrangersTurnedAway(v: View, x: Visit)
    requires v.user == [] && (Replicated(x.kind) || Query(x.kind) || x.kind == MSG_LOGOUT)
    requires x.kind != MSG_CREATE_USER
    ensures Handles(v, x) == Handled(v, x.db, Reply(ST_NOT_LOGGED_IN, []), None)
  {
    hide Exec, ParseRequest, LogPayload, Logout;
  }

  // ----- the sessions of Session.dfy ----------------------------------------

  /** The requests of a session with the databases they find, when nobody else is at work. */
  function Visits(s: Served, ms: seq<Net.Message>, clock: nat -> nat, linked: bool): seq<Visit> {
    if ms == [] then []
    else
      var before, m := ms[..|ms| - 1], ms[|ms| - 1];
      Visits(s, before, clock, linked)
        + [Visit(ServeAll(s, before, clock, linked).node.db, m.kind, m.payload)]
  }

  lemma {:induction false} ServedView(s: Served, ms: seq<Net.Message>, clock: nat -> nat, linked: bool, ip: Str)
    requires s.view == View([], ip, 0)
    ensures ServeAll(s, ms, clock, linked).view == ViewAfter(ip, Visits(s, ms, clock, linked))
  {
    hide Handle;
    if ms != [] {
      var before, m := ms[..|ms| - 1], ms[|ms| - 1];
      ServedView(s, before, clock, linked, ip);
      var xs, x := Visits(s, before, clock, linked),
        Visit(ServeAll(s, before, clock, linked).node.db, m.kind, m.payload);
      assert (xs + [x])[..|xs|] == xs;
    }
  }

  /** A session served alone ends as a user's exactly when one of that user's logins is in force. */
  lemma ServedUserIff(s: Served, ms: seq<Net.Message>, clock: nat -> nat, linked: bool, u: Str, port: U16)
    requires s.view.user == [] && s.view.port == 0 && u != []
    ensures ServeAll(s, ms, clock, linked).view == View(u, s.view.ip, port)
      <==> exists i: nat :: InForce(s.view.ip, Visits(s, ms, clock, linked), i, u, port)
  {
    hide ServeAll, ViewAfter, Visits, InForce;
    ServedView(s, ms, clock, linked, s.view.ip);
    SessionIsIff(s.view.ip, Visits(s, ms, clock, linked), u, port);
  }
}
