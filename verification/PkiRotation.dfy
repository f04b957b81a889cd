/** Renewal of a node's two leaf certificates (`pki_rotation.rs`). */
module PkiRotation {
  import opened JsonValue

  /** What one leaf's step meets: the lease's serial or why it cannot be read, whether a leaf is
      issued, and whether the listener or the publisher takes it. */
  datatype Attempt = Attempt(lease: Option<nat>, issued: bool, taken: bool)

  datatype Leaf = Leaf(held: nat, serial: nat)

  /** The leaves in use, the serials the renewer believes, and the two counters. */
  datatype State = State(server: Leaf, client: Leaf, renewed: nat, failed: nat)

  const SERVER_STANDING: nat := 2
  const CLIENT_STANDING: nat := 3

  class Renewer {
    var live: nat          // the serial of the leaf the listener presents
    var published: nat     // the serial of the last client leaf published
    var serverSerial: nat
    var clientSerial: nat
    var renewed: nat
    var failed: nat

    function Now(): State
      reads this
    {
      State(Leaf(live, serverSerial), Leaf(published, clientSerial), renewed, failed)
    }

    /** `issue_first`, when both first leaves are issued. */
    constructor (serverLease: Option<nat>, clientLease: Option<nat>)
      ensures Now() == First(serverLease, clientLease)
    {
      var lost := 0;
      var server, client := SERVER_STANDING, CLIENT_STANDING;
      if serverLease.Some? {
        server := serverLease.value;
      } else {
        lost := lost + 1;
      }
      if clientLease.Some? {
        client := clientLease.value;
      } else {
        lost := lost + 1;
      }
      live, serverSerial := server, server;
      published, clientSerial := client, client;
      renewed, failed := 0, lost;
    }

    method RenewServer(a: Attempt) returns (ok: bool)
      modifies this
      ensures Now() == old(Now()).(server := Renewal(old(Now()).server, a),
                                   renewed := old(renewed) + Renewals(old(Now()).server, a))
      ensures ok == Succeeds(old(Now()).server, a)
    {
      if a.lease.None? {
        return false;
      }
      if a.lease.value == serverSerial {
        return true;
      }
      if !a.issued || !a.taken {
        return false;
      }
      live := a.lease.value;
      serverSerial := a.lease.value;
      renewed := renewed + 1;
      return true;
    }

    method RenewClient(a: Attempt) returns (ok: bool)
      modifies this
      ensures Now() == old(Now()).(client := Renewal(old(Now()).client, a),
                                   renewed := old(renewed) + Renewals(old(Now()).client, a))
      ensures ok == Succeeds(old(Now()).client, a)
    {
      if a.lease.None? {
        return false;
      }
      if a.lease.value == clientSerial {
        return true;
      }
      if !a.issued || !a.taken {
        return false;
      }
      published := a.lease.value;
      clientSerial := a.lease.value;
      renewed := renewed + 1;
      return true;
    }

    method Tick(server: Attempt, client: Attempt)
      modifies this
      ensures Now() == Ticked(old(Now()), server, client)
    {
      var ok := RenewServer(server);
      if !ok {
        failed := failed + 1;
      }
      ok := RenewClient(client);
      if !ok {
        failed := failed + 1;
      }
    }
  }

  // ---- the specification -------------------------------------------------------------------

  function First(server: Option<nat>, client: Option<nat>): State {
    var s := if server.Some? then server.value else SERVER_STANDING;
    var c := if client.Some? then client.value else CLIENT_STANDING;
    State(Leaf(s, s), Leaf(c, c), 0, (if server.None? then 1 else 0) + if client.None? then 1 else 0)
  }

  /** A new lease was read and its leaf was issued and taken into use. */
  predicate Renews(leaf: Leaf, a: Attempt) {
    a.lease.Some? && a.lease.value != leaf.serial && a.issued && a.taken
  }

  predicate Succeeds(leaf: Leaf, a: Attempt) {
    a.lease.Some? && (a.lease.value == leaf.serial || (a.issued && a.taken))
  }

  function Renewal(leaf: Leaf, a: Attempt): Leaf {
    if Renews(leaf, a) then Leaf(a.lease.value, a.lease.value) else leaf
  }

  function Renewals(leaf: Leaf, a: Attempt): nat {
    if Renews(leaf, a) then 1 else 0
  }

  function Failures(leaf: Leaf, a: Attempt): nat {
    if Succeeds(leaf, a) then 0 else 1
  }

  function Ticked(s: State, server: Attempt, client: Attempt): State {
    State(Renewal(s.server, server), Renewal(s.client, client),
          s.renewed + Renewals(s.server, server) + Renewals(s.client, client),
          s.failed + Failures(s.server, server) + Failures(s.client, client))
  }

  // ---- runs --------------------------------------------------------------------------------

  type Ticks = seq<(Attempt, Attempt)>

  function Run(start: State, ticks: Ticks): State {
    if ticks == [] then start
    else
      var n := |ticks| - 1;
      Ticked(Run(start, ticks[..n]), ticks[n].0, ticks[n].1)
  }

  function LeafRun(leaf: Leaf, attempts: seq<Attempt>): Leaf {
    if attempts == [] then leaf
    else
      var n := |attempts| - 1;
      Renewal(LeafRun(leaf, attempts[..n]), attempts[n])
  }

  /** How many steps of one leaf's run changed its serial. */
  function Changes(leaf: Leaf, attempts: seq<Attempt>): nat {
    if attempts == [] then 0
    else
      var before := attempts[..|attempts| - 1];
      Changes(leaf, before) + if LeafRun(leaf, attempts).serial != LeafRun(leaf, before).serial then 1 else 0
  }

  /** How many had an error: an unread lease, or a new one whose leaf was not put to use. */
  function Errors(leaf: Leaf, attempts: seq<Attempt>): nat {
    if attempts == [] then 0
    else
      var n := |attempts| - 1;
      var a, serial := attempts[n], LeafRun(leaf, attempts[..n]).serial;
      Errors(leaf, attempts[..n]) +
        if a.lease.None? || (a.lease.value != serial && !(a.issued && a.taken)) then 1 else 0
  }

  function Servers(ticks: Ticks): seq<Attempt> {
    seq(|ticks|, i requires 0 <= i < |ticks| => ticks[i].0)
  }

  function Clients(ticks: Ticks): seq<Attempt> {
    seq(|ticks|, i requires 0 <= i < |ticks| => ticks[i].1)
  }

  /** Over every run of ticks each leaf runs apart from the other, the counters count exactly
      the serial changes and the erring steps of both, and what is in use is what is believed. */
  lemma {:induction false} RunCounts(server: Option<nat>, client: Option<nat>, ticks: Ticks)
    ensures var start := First(server, client);
            var end := Run(start, ticks);
            && end.server == LeafRun(start.server, Servers(ticks))
               && end.client == LeafRun(start.client, Clients(ticks))
            && end.renewed == Changes(start.server, Servers(ticks)) + Changes(start.client, Clients(ticks))
            && end.failed == start.failed + Errors(start.server, Servers(ticks)) + Errors(start.client, Clients(ticks))
            && end.server.held == end.server.serial && end.client.held == end.client.serial
  {
    if ticks != [] {
      var n := |ticks| - 1;
      RunCounts(server, client, ticks[..n]);
      assert Servers(ticks)[..n] == Servers(ticks[..n]) && Clients(ticks)[..n] == Clients(ticks[..n]);
    }
  }

  /** The first leaves are under the leases read, serial 2 for a server and 3 for a client without
      one, each of which is a failure. */
  lemma FirstLeaves(server: Option<nat>, client: Option<nat>)
    ensures var s := First(server, client);
            && s.server.held == s.server.serial && s.client.held == s.client.serial && s.renewed == 0
            && server in {None, Some(s.server.serial)} && (server == None ==> s.server.serial == 2)
            && client in {None, Some(s.client.serial)} && (client == None ==> s.client.serial == 3)
            && s.failed == (if server == None then 1 else 0) + (if client == None then 1 else 0)
  {
  }

  /** A leaf after a step: under the lease read when its leaf is issued and taken, or when that
      was its lease already; as it was after any other. */
  ghost predicate Follows(before: Leaf, a: Attempt, after: Leaf) {
    if exists n :: a.lease == Some(n) && (n == before.serial || (a.issued && a.taken))
    then a.lease == Some(after.serial) && after.held == after.serial
    else after == before
  }

  /** After any run, one more tick brings each leaf under the lease it reads, or leaves it; and a
      tick that leaves a leaf for an unread lease or an unused leaf is counted, once for each. */
  lemma TickFollowsTheLeases(server: Option<nat>, client: Option<nat>, ticks: Ticks, s: Attempt, c: Attempt)
    ensures var before, after := Run(First(server, client), ticks), Run(First(server, client), ticks + [(s, c)]);
            && Follows(before.server, s, after.server) && Follows(before.client, c, after.client)
            && after.renewed - before.renewed == (if after.server.serial != before.server.serial then 1 else 0) +
               (if after.client.serial != before.client.serial then 1 else 0)
            && after.failed - before.failed == (if s.lease == Some(after.server.serial) then 0 else 1) +
               (if c.lease == Some(after.client.serial) then 0 else 1)
  {
    RunCounts(server, client, ticks);
    assert (ticks + [(s, c)])[..|ticks|] == ticks;
  }
}
