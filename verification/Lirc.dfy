/**
 * The class lirc with its client list: a singly linked list of heap nodes, prepended to by processnewclient
 * and swept in place by processevent (src/lirc.cpp:122-177, src/lirc.h:57-65). Each method is one critical
 * section under lirc_sync.
 */
module LircList {
  import opened Sequences
  import opened Subscribers

  class Client {
    var fd: int
    var next: Client?

    constructor ()
      ensures fd == 0 && next == null
    {
      fd, next := 0, null;
    }
  }

  /** Following `next` from `head` visits exactly `nodes` and then arrives at `end`. */
  ghost predicate Linked(head: Client?, nodes: seq<Client>, end: Client?)
    reads nodes`next
  {
    if nodes == [] then head == end
    else head == nodes[0] && Linked(nodes[0].next, nodes[1..], end)
  }

  lemma {:induction false} LinkedSnoc(head: Client?, nodes: seq<Client>, c: Client, end: Client?)
    requires Linked(head, nodes, c) && c.next == end
    ensures Linked(head, nodes + [c], end)
  {
    if nodes == [] {
      assert [c][1..] == [] && nodes + [c] == [c];
    } else {
      LinkedSnoc(nodes[0].next, nodes[1..], c, end);
      assert (nodes + [c])[1..] == nodes[1..] + [c];
    }
  }

  lemma {:induction false} LinkedLast(head: Client?, nodes: seq<Client>, end: Client?)
    requires Linked(head, nodes, end) && nodes != []
    ensures Linked(head, nodes[..|nodes| - 1], nodes[|nodes| - 1])
  {
    var n := |nodes| - 1;
    if n > 0 {
      LinkedLast(nodes[0].next, nodes[1..], end);
      assert nodes[..n][1..] == nodes[1..][..n - 1];
    }
  }

  ghost predicate Distinct(s: seq<Client>) {
    s != [] ==> s[0] !in s[1..] && Distinct(s[1..])
  }

  lemma {:induction false} DistinctAt(s: seq<Client>, i: nat, j: nat)
    requires Distinct(s) && i < j < |s|
    ensures s[i] != s[j]
  {
    if i > 0 {
      DistinctAt(s[1..], i - 1, j - 1);
    } else {
      assert s[1..][j - 1] == s[j];
    }
  }

  lemma {:induction false} DistinctPairs(s: seq<Client>)
    requires forall i, j :: 0 <= i < j < |s| ==> s[i] != s[j]
    ensures Distinct(s)
  {
    if s != [] {
      DistinctPairs(s[1..]);
    }
  }

  lemma OnlyOnce(s: seq<Client>, i: nat)
    requires Distinct(s) && i < |s|
    ensures forall j :: 0 <= j < |s| && j != i ==> s[j] != s[i]
  {
    forall j | 0 <= j < |s| && j != i ensures s[j] != s[i] {
      DistinctAt(s, if j < i then j else i, if j < i then i else j);
    }
  }

  lemma DistinctSlices(s: seq<Client>, i: nat)
    requires Distinct(s) && i < |s|
    ensures Distinct(s[..i]) && s[i] !in s[..i] && Apart(s[..i], s[i + 1..]) && s[i] !in s[i + 1..]
  {
    forall j, k | 0 <= j < k < |s| ensures s[j] != s[k] {
      DistinctAt(s, j, k);
    }
    DistinctPairs(s[..i]);
  }

  /** The allocated nodes are the disjoint union of the listed ones and the freed ones. */
  ghost predicate Accounted(nodes: seq<Client>, pool: set<Client>, freed: set<Client>) {
    && freed <= pool
    && (forall n | n in nodes :: n in pool && n !in freed)
    && (forall n | n in pool :: n in nodes || n in freed)
  }

  /** The nodes hold the descriptors of the entries. */
  ghost predicate Carry(nodes: seq<Client>, entries: seq<Entry>)
    reads nodes`fd
  {
    |nodes| == |entries| && forall i :: 0 <= i < |nodes| ==> nodes[i].fd == entries[i].fd
  }

  /** Exactly the nodes to be removed are marked. */
  ghost predicate Marked(nodes: seq<Client>, keep: seq<bool>)
    reads nodes`fd
  {
    |keep| == |nodes| && forall j :: 0 <= j < |nodes| ==> (keep[j] <==> nodes[j].fd >= 0)
  }

  class Lirc {
    const env: Env
    var clients: Client?
    var os: Os
    var sent: nat                // numbers the messages for the write answers of env
    ghost var hub: Hub           // what the object stands for
    ghost var nodes: seq<Client> // the list, in order
    ghost var pool: set<Client>  // every node xalloc ever returned
    ghost var freed: set<Client>

    /** Holds whenever lirc_sync is free. */
    ghost predicate Valid()
      reads this, nodes
    {
      && Linked(clients, nodes, null) && Distinct(nodes) && Accounted(nodes, pool, freed)
      && Carry(nodes, hub.clients) && hub.os == os && |hub.log| == sent
      && WellFormed(hub)
    }

    constructor (env: Env)
      ensures Valid() && hub == EMPTY && this.env == env && nodes == [] && pool == {} && freed == {}
    {
      this.env := env;
      clients, os, sent := null, Os(map[], []), 0;
      hub, nodes, pool, freed := EMPTY, [], {}, {};
    }

    /** free(): a node may be freed once. */
    ghost method Free(c: Client)
      requires c in pool && c !in freed
      modifies this`freed
      ensures freed == old(freed) + {c}
    {
      freed := freed + {c};
    }

    /** xalloc(): a node nobody knows. */
    method Alloc() returns (c: Client)
      modifies this`pool
      ensures fresh(c) && pool == old(pool) + {c} && c.next == null
    {
      c := new Client();
      pool := pool + {c};
    }

    /** `answer` is what accept() returns: negative, or a descriptor that is not open. */
    method ProcessNewClient(answer: int) returns (ghost newest: Client)
      requires Valid() && (answer < 0 || answer !in os.open)
      modifies this
      ensures Valid() && hub == AcceptClient(old(hub), answer)
      ensures fresh(newest) && pool == old(pool) + {newest}
      ensures freed == old(freed) + (if answer < 0 then {newest} else {})
      ensures nodes == (if answer < 0 then [] else [newest]) + old(nodes)
    {
      hide WellFormed, AcceptClient, Linked, Distinct, Accounted, Carry;
      PrepareAccept(hub, answer);
      var newclient := Alloc();
      newest := newclient;
      AllocateNode(newclient, nodes, old(pool), freed);
      newclient.fd := answer;
      if newclient.fd < 0 {
        Free(newclient);
      } else {
        os := Os(os.open[newclient.fd := |os.streams|], os.streams + [""]);
        newclient.next := clients;
        clients := newclient;
        ConsNode(newclient, nodes);
        ConsFds(newclient, nodes, Entry(answer, |hub.os.streams|), hub.clients);
        nodes := [newclient] + nodes;
        hub := AcceptClient(hub, answer);
      }
    }

    /** One message to every client; clients that do not take all of it are closed, unlinked and freed. */
    method ProcessEvent(message: string)
      requires Valid()
      modifies this, nodes
      ensures Valid() && hub == Broadcast(env, old(hub), message)
      ensures nodes == Select(old(nodes), Mask(env, old(hub), message))
      ensures Within(nodes, old(nodes))
      ensures KeptExactly(env, old(hub), message, old(nodes), nodes) && pool == old(pool)
      ensures old(freed) <= freed
    {
      hide WellFormed, Broadcast, Mask, Select, Full, FdAfter, Linked, Accounted, Distinct, Turn, Reached;
      hide WriteAll, FreedAfter, KeptExactly, Carry, Marked, AllReached, AllInTurn, Written;
      ghost var keep, all := Mask(env, hub, message), nodes;
      Prepare(env, hub, message, nodes, pool, freed);
      WriteToAll(message);
      WrittenMarks(env, hub, message, all);
      Sweep(keep);
      SweptFds(env, hub, message, all);
      sent := sent + 1;
      hub := Broadcast(env, hub, message);
    }

    /** The first loop: a failed write closes the descriptor and marks the node with -1. */
    method WriteToAll(message: string)
      requires Linked(clients, nodes, null) && Distinct(nodes)
      requires Carry(nodes, hub.clients) && os == hub.os && os.Valid() && sent == |hub.log|
      requires AllReached(env, hub, message)
      modifies this`os, nodes`fd
      ensures os == WriteAll(env, hub, message, |nodes|)
      ensures Written(env, hub, message, nodes)
    {
      hide Linked, Distinct, WriteAll, Reached, FdAfter;
      ghost var i := 0;
      var client := clients;
      WriteStart(env, hub, message, nodes);
      while client != null
        invariant i <= |nodes| && Linked(client, nodes[i..], null)
        invariant os == WriteAll(env, hub, message, i)
        invariant forall j :: i <= j < |nodes| ==> nodes[j].fd == hub.clients[j].fd
        invariant forall j :: 0 <= j < i ==> nodes[j].fd == FdAfter(env, hub, message, j)
        decreases |nodes| - i
      {
        LinkedRest(client, nodes, i);
        OnlyOnce(nodes, i);
        WriteRound(env, hub, message, i);
        var (after, written) := Write(env, os, client.fd, sent, message);
        os := after;
        if written != |message| {
          os := Close(os, client.fd);
          client.fd := -1;
        }
        client := client.next;
        i := i + 1;
      }
      LinkedRest(client, nodes, i);
    }

    /** `prev->next = next`, or `clients = next` when nothing is kept yet: the walk skips the node between. */
    method Bypass(prev: Client?, next: Client?, ghost kept: seq<Client>, ghost was: Client?, ghost rest: seq<Client>)
      requires Linked(clients, kept, was) && Distinct(kept)
      requires Linked(next, rest, null) && Apart(kept, rest)
      requires prev == if kept == [] then null else kept[|kept| - 1]
      modifies this`clients, (if prev != null then {prev} else {})`next
      ensures Linked(clients, kept, next) && Linked(next, rest, null)
    {
      if prev != null {
        ghost var init := kept[..|kept| - 1];
        LinkedLast(clients, kept, was);
        DistinctSlices(kept, |kept| - 1);
        assert prev in kept && prev !in rest;
        prev.next := next;
        LinkedSnoc(clients, init, prev, next);
        assert init + [prev] == kept;
      } else {
        clients := next;
      }
    }

    /** The second loop: unlink and free every marked node, keep the order of the others. */
    method Sweep(ghost keep: seq<bool>)
      requires Linked(clients, nodes, null) && Marked(nodes, keep) && AllInTurn(freed, nodes, keep, pool)
      modifies this`clients, this`nodes, this`freed, nodes`next
      ensures nodes == Select(old(nodes), keep)
      ensures Linked(clients, nodes, null)
      ensures freed == FreedAfter(old(freed), old(nodes), keep, |keep|)
    {
      hide Linked, Distinct, Apart, Select, FreedAfter;
      ghost var all, kept, i := nodes, [], 0;
      var prev: Client?, client := null, clients;
      SweepStart(freed, all, keep, clients);
      while client != null
        invariant i <= |all| && kept == Select(all[..i], keep[..i])
        invariant prev == if kept == [] then null else kept[|kept| - 1]
        invariant Linked(clients, kept, client) && Linked(client, all[i..], null)
        invariant freed == FreedAfter(old(freed), all, keep, i)
        decreases |all| - i
      {
        LinkedRest(client, all, i);
        assert Turn(old(freed), all, keep, pool, i);
        var next := client.next;
        if client.fd < 0 {
          assert prev != null ==> prev in kept && prev !in freed;
          Bypass(prev, client.next, kept, client, all[i + 1..]);
          Free(client);
        } else {
          LinkedSnoc(clients, kept, client, next);
          kept := kept + [client];
          prev := client;
        }
        client, i := next, i + 1;
      }
      LinkedRest(client, all, i);
      assert all[..i] == all && keep[..i] == keep;
      nodes := kept;
    }
  }

  lemma SweepStart(freed: set<Client>, all: seq<Client>, keep: seq<bool>, head: Client?)
    requires |all| == |keep|
    ensures FreedAfter(freed, all, keep, 0) == freed && Select(all[..0], keep[..0]) == []
    ensures Linked(head, [], head) && all[0..] == all
  {
  }

  lemma LinkedRest(c: Client?, all: seq<Client>, i: nat)
    requires i <= |all| && Linked(c, all[i..], null)
    ensures c == null <==> i == |all|
    ensures i < |all| ==> c == all[i] && Linked(all[i].next, all[i + 1..], null)
  {
    if i < |all| {
      assert all[i..][1..] == all[i + 1..];
    }
  }

  /** The freed nodes when the sweep has visited the first i. */
  ghost function FreedAfter(freed: set<Client>, all: seq<Client>, keep: seq<bool>, i: nat): set<Client>
    requires i <= |all| == |keep|
  {
    if i == 0 then freed
    else if keep[i - 1] then FreedAfter(freed, all, keep, i - 1)
    else FreedAfter(freed, all, keep, i - 1) + {all[i - 1]}
  }

  lemma {:induction false} FreedMeans(freed: set<Client>, all: seq<Client>, keep: seq<bool>, i: nat, n: Client)
    requires i <= |all| == |keep|
    ensures n in FreedAfter(freed, all, keep, i) <==> n in freed || exists j :: 0 <= j < i && !keep[j] && all[j] == n
  {
    if i > 0 {
      FreedMeans(freed, all, keep, i - 1, n);
    }
  }

  /** What the sweep meets in round i: the node is not freed, nor is any node kept so far. */
  ghost predicate Turn(freed: set<Client>, all: seq<Client>, keep: seq<bool>, pool: set<Client>, i: nat)
    requires i < |all| == |keep|
  {
    var kept := Select(all[..i], keep[..i]);
    && Select(all[..i + 1], keep[..i + 1]) == kept + (if keep[i] then [all[i]] else [])
    && FreedAfter(freed, all, keep, i + 1) == FreedAfter(freed, all, keep, i) + (if keep[i] then {} else {all[i]})
    && all[i] in pool && all[i] !in FreedAfter(freed, all, keep, i)
    && (forall n | n in kept :: n in all && n !in FreedAfter(freed, all, keep, i))
    && Distinct(kept) && Apart(kept, all[i + 1..])
  }

  ghost predicate AllInTurn(freed: set<Client>, all: seq<Client>, keep: seq<bool>, pool: set<Client>)
    requires |all| == |keep|
  {
    forall i :: 0 <= i < |all| ==> Turn(freed, all, keep, pool, i)
  }

  lemma AllTurns(freed: set<Client>, all: seq<Client>, keep: seq<bool>, pool: set<Client>)
    requires |all| == |keep| && Distinct(all) && Accounted(all, pool, freed)
    ensures AllInTurn(freed, all, keep, pool)
  {
    forall i | 0 <= i < |all| ensures Turn(freed, all, keep, pool, i) {
      SelectNext(all, keep, i);
      DistinctSlices(all, i);
      SelectDistinct(all[..i], keep[..i]);
      NotFreedYet(freed, all, keep, pool, i);
    }
  }

  lemma NotFreedYet(freed: set<Client>, all: seq<Client>, keep: seq<bool>, pool: set<Client>, i: nat)
    requires i < |all| == |keep| && Distinct(all) && Accounted(all, pool, freed)
    ensures all[i] !in FreedAfter(freed, all, keep, i) && all[i] in pool
    ensures forall n | n in Select(all[..i], keep[..i]) ::
              n in all && n !in all[i + 1..] && n !in FreedAfter(freed, all, keep, i)
  {
    FreedMeans(freed, all, keep, i, all[i]);
    DistinctSlices(all, i);
    assert all[i] in all;
    OnlyOnce(all, i);
    SelectAt(all[..i], keep[..i]);
    forall n | n in Select(all[..i], keep[..i])
      ensures n in all && n !in all[i + 1..] && n !in FreedAfter(freed, all, keep, i)
    {
      FreedMeans(freed, all, keep, i, n);
      var k :| 0 <= k < |Select(all[..i], keep[..i])| && Select(all[..i], keep[..i])[k] == n;
      var p := Positions(keep[..i])[k];
      assert keep[p] && all[p] == n && n in all && n in all[..i];
      OnlyOnce(all, p);
    }
  }

  lemma {:induction false} FreedWithin(freed: set<Client>, all: seq<Client>, keep: seq<bool>, pool: set<Client>, i: nat)
    requires i <= |all| == |keep| && Accounted(all, pool, freed)
    ensures FreedAfter(freed, all, keep, i) <= pool
  {
    if i > 0 {
      FreedWithin(freed, all, keep, pool, i - 1);
      assert all[i - 1] in all;
    }
  }

  lemma FreedAll(freed: set<Client>, all: seq<Client>, keep: seq<bool>, pool: set<Client>)
    requires |all| == |keep| && Distinct(all) && Accounted(all, pool, freed)
    ensures Accounted(Select(all, keep), pool, FreedAfter(freed, all, keep, |all|))
    ensures freed <= FreedAfter(freed, all, keep, |all|)
  {
    SelectWithin(all, keep);
    SelectKeeps(all, keep);
    forall n | n in pool ensures n in FreedAfter(freed, all, keep, |all|) <==> n !in Select(all, keep) {
      FreedMeans(freed, all, keep, |all|, n);
      SelectedOrNot(all, keep, n);
    }
    forall n | n in freed ensures n in FreedAfter(freed, all, keep, |all|) {
      FreedMeans(freed, all, keep, |all|, n);
    }
    FreedWithin(freed, all, keep, pool, |all|);
  }

  lemma SelectedOrNot(all: seq<Client>, keep: seq<bool>, n: Client)
    requires |all| == |keep| && Distinct(all)
    ensures (exists j :: 0 <= j < |all| && !keep[j] && all[j] == n) <==> n in all && n !in Select(all, keep)
  {
    SelectAt(all, keep);
    SelectWithin(all, keep);
    SelectKeeps(all, keep);
    var chosen := Select(all, keep);
    if n in chosen {
      var k :| 0 <= k < |chosen| && chosen[k] == n;
      var p := Positions(keep)[k];
      assert keep[p] && all[p] == n;
      OnlyOnce(all, p);
      forall j | 0 <= j < |all| && !keep[j] ensures all[j] != n {
        assert j != p;
      }
    } else if n in all {
      var j :| 0 <= j < |all| && all[j] == n;
      assert !keep[j];
    }
  }

  ghost predicate Within(a: seq<Client>, b: seq<Client>) {
    forall i :: 0 <= i < |a| ==> a[i] in b
  }

  twostate predicate OldOrNew(new nodes: seq<Client>, before: seq<Client>) {
    forall i :: 0 <= i < |nodes| ==> nodes[i] in before || fresh(nodes[i])
  }

  ghost predicate Apart(a: seq<Client>, b: seq<Client>) {
    forall n | n in a :: n !in b
  }

  /** Everything one accept needs to know about the values involved. */
  lemma PrepareAccept(h: Hub, answer: int)
    requires WellFormed(h) && (answer < 0 || answer !in h.os.open)
    ensures WellFormed(AcceptClient(h, answer)) && |AcceptClient(h, answer).log| == |h.log|
    ensures answer < 0 ==> AcceptClient(h, answer) == h
    ensures answer >= 0 ==>
              && AcceptClient(h, answer).clients == [Entry(answer, |h.os.streams|)] + h.clients
              && AcceptClient(h, answer).os == Os(h.os.open[answer := |h.os.streams|], h.os.streams + [""])
  {
    AcceptWellFormed(h, answer);
  }

  /** A fresh node is accounted for whether it is listed or freed. */
  lemma AllocateNode(c: Client, nodes: seq<Client>, pool: set<Client>, freed: set<Client>)
    requires Accounted(nodes, pool, freed) && c !in pool
    ensures c !in nodes && c !in freed
    ensures Accounted(nodes, pool + {c}, freed + {c}) && Accounted([c] + nodes, pool + {c}, freed)
  {
  }

  lemma ConsNode(c: Client, nodes: seq<Client>)
    requires c !in nodes && Distinct(nodes) && Linked(c.next, nodes, null)
    ensures Distinct([c] + nodes) && Linked(c, [c] + nodes, null)
  {
    assert ([c] + nodes)[1..] == nodes;
  }

  lemma ConsFds(c: Client, nodes: seq<Client>, e: Entry, entries: seq<Entry>)
    requires Carry(nodes, entries) && c.fd == e.fd
    ensures Carry([c] + nodes, [e] + entries)
  {
  }

  /** A node is kept exactly if write() on its descriptor answered the length of the message. */
  ghost predicate KeptExactly(env: Env, h: Hub, message: string, before: seq<Client>, after: seq<Client>) {
    && |before| == |h.clients|
    && forall i :: 0 <= i < |before| ==>
         (before[i] in after <==> env.write(h.clients[i].conn, |h.log|) == |message|)
  }

  lemma KeptByWrite(env: Env, h: Hub, message: string, nodes: seq<Client>)
    requires |nodes| == |h.clients| && Distinct(nodes)
    ensures KeptExactly(env, h, message, nodes, Select(nodes, Mask(env, h, message)))
  {
    var keep := Mask(env, h, message);
    SelectKeeps(nodes, keep);
    forall i | 0 <= i < |nodes|
      ensures nodes[i] in Select(nodes, keep) <==> env.write(h.clients[i].conn, |h.log|) == |message|
    {
      FullMeans(env, h.clients[i].conn, |h.log|, message);
      if !keep[i] {
        SelectedOrNot(nodes, keep, nodes[i]);
      }
    }
  }

  /** Everything one message needs to know about the values involved. */
  lemma Prepare(env: Env, h: Hub, message: string, nodes: seq<Client>, pool: set<Client>, freed: set<Client>)
    requires WellFormed(h) && Carry(nodes, h.clients) && Distinct(nodes) && Accounted(nodes, pool, freed)
    ensures |h.clients| == |nodes| && h.os.Valid() && AllReached(env, h, message)
    ensures var keep := Mask(env, h, message);
            var all := Select(nodes, keep);
            && AllInTurn(freed, nodes, keep, pool)
            && Distinct(all) && Accounted(all, pool, FreedAfter(freed, nodes, keep, |keep|))
            && Within(all, nodes) && KeptExactly(env, h, message, nodes, all)
            && freed <= FreedAfter(freed, nodes, keep, |keep|)
            && Broadcast(env, h, message).clients == Select(h.clients, keep)
    ensures Broadcast(env, h, message).os == WriteAll(env, h, message, |nodes|)
    ensures |Broadcast(env, h, message).log| == |h.log| + 1 && WellFormed(Broadcast(env, h, message))
  {
    var keep := Mask(env, h, message);
    EachReached(env, h, message);
    AllTurns(freed, nodes, keep, pool);
    WriteAllIsBroadcast(env, h, message);
    BroadcastWellFormed(env, h, message);
    SelectDistinct(nodes, keep);
    SelectWithin(nodes, keep);
    KeptByWrite(env, h, message, nodes);
    FreedAll(freed, nodes, keep, pool);
  }

  /** After the first loop. */
  ghost predicate Written(env: Env, h: Hub, message: string, nodes: seq<Client>)
    reads nodes`fd
  {
    |nodes| == |h.clients| && forall j :: 0 <= j < |nodes| ==> nodes[j].fd == FdAfter(env, h, message, j)
  }

  lemma AllFullMeans(env: Env, h: Hub, message: string)
    ensures forall i :: 0 <= i < |h.clients| ==>
              (Mask(env, h, message)[i] <==> env.write(h.clients[i].conn, |h.log|) == |message|)
  {
    forall i | 0 <= i < |h.clients|
      ensures Mask(env, h, message)[i] <==> env.write(h.clients[i].conn, |h.log|) == |message|
    {
      FullMeans(env, h.clients[i].conn, |h.log|, message);
    }
  }

  lemma WrittenMarks(env: Env, h: Hub, message: string, nodes: seq<Client>)
    requires Written(env, h, message, nodes) && WellFormed(h)
    ensures Marked(nodes, Mask(env, h, message))
  {
    AllFullMeans(env, h, message);
    hide Full;
  }

  /** The nodes left are the nodes of the entries left. */
  lemma SweptFds(env: Env, h: Hub, message: string, all: seq<Client>)
    requires Written(env, h, message, all)
    ensures var keep := Mask(env, h, message); Carry(Select(all, keep), Select(h.clients, keep))
  {
    AllFullMeans(env, h, message);
    hide Full;
    SelectAt(all, Mask(env, h, message));
    SelectAt(h.clients, Mask(env, h, message));
  }

  lemma SelectDistinct(all: seq<Client>, keep: seq<bool>)
    requires |all| == |keep| && Distinct(all)
    ensures Distinct(Select(all, keep))
  {
    SelectAt(all, keep);
    var kept, at := Select(all, keep), Positions(keep);
    forall i, j | 0 <= i < j < |kept| ensures kept[i] != kept[j] {
      DistinctAt(all, at[i], at[j]);
    }
    DistinctPairs(kept);
  }

  // ------------------------------------------------------------ the first loop on values

  /** The kernel after `i` rounds of the first loop of processevent. */
  function WriteAll(env: Env, h: Hub, message: string, i: nat): (os: Os)
    requires i <= |h.clients| && h.os.Valid()
    ensures os.Valid() && |os.streams| == |h.os.streams|
  {
    if i == 0 then h.os
    else
      var fd := h.clients[i - 1].fd;
      var (os, written) := Write(env, WriteAll(env, h, message, i - 1), fd, |h.log|, message);
      if written == |message| then os else Close(os, fd)
  }

  /** Distinct descriptors make the loop write to each connection once, and close exactly the failed ones. */
  lemma {:induction false} WriteAllOpen(env: Env, h: Hub, message: string, i: nat)
    requires i <= |h.clients| && WellFormed(h)
    ensures var os := WriteAll(env, h, message, i);
            && (forall fd :: fd in os.open ==> fd in h.os.open && os.open[fd] == h.os.open[fd])
            && (forall j :: i <= j < |h.clients| ==> h.clients[j].fd in os.open)
            && (forall j :: 0 <= j < i ==>
                  (h.clients[j].fd in os.open <==> Full(env, h.clients[j].conn, |h.log|, message)))
  {
    if i > 0 {
      WriteAllOpen(env, h, message, i - 1);
      forall j | 0 <= j < |h.clients| && j != i - 1 ensures h.clients[j].fd != h.clients[i - 1].fd {
        DistinctDescriptors(h, if j < i - 1 then j else i - 1, if j < i - 1 then i - 1 else j);
      }
    }
  }

  /** When round i comes, the i-th client's descriptor is open and still its own. */
  ghost predicate Reached(env: Env, h: Hub, message: string, i: nat)
    requires i < |h.clients| && h.os.Valid()
  {
    var os := WriteAll(env, h, message, i);
    h.clients[i].fd in os.open && os.open[h.clients[i].fd] == h.clients[i].conn
  }

  lemma WriteStart(env: Env, h: Hub, message: string, nodes: seq<Client>)
    requires h.os.Valid()
    ensures WriteAll(env, h, message, 0) == h.os && nodes[0..] == nodes
  {
  }

  /** One round of the first loop. */
  lemma WriteRound(env: Env, h: Hub, message: string, i: nat)
    requires i < |h.clients| && h.os.Valid() && Reached(env, h, message, i)
    ensures var fd := h.clients[i].fd;
            var (after, written) := Write(env, WriteAll(env, h, message, i), fd, |h.log|, message);
            && WriteAll(env, h, message, i + 1) == (if written == |message| then after else Close(after, fd))
            && FdAfter(env, h, message, i) == (if written == |message| then fd else -1)
  {
  }

  ghost function FdAfter(env: Env, h: Hub, message: string, j: nat): int
    requires j < |h.clients|
  {
    if env.write(h.clients[j].conn, |h.log|) == |message| then h.clients[j].fd else -1
  }

  ghost predicate AllReached(env: Env, h: Hub, message: string)
    requires h.os.Valid()
  {
    forall i :: 0 <= i < |h.clients| ==> Reached(env, h, message, i)
  }

  lemma EachReached(env: Env, h: Hub, message: string)
    requires WellFormed(h)
    ensures AllReached(env, h, message)
  {
    forall i | 0 <= i < |h.clients| ensures Reached(env, h, message, i) {
      WriteAllOpen(env, h, message, i);
    }
  }

  lemma WriteAllStep(env: Env, h: Hub, message: string, i: nat)
    requires 0 < i <= |h.clients| && WellFormed(h)
    ensures var before, c := WriteAll(env, h, message, i - 1).streams, h.clients[i - 1].conn;
            && c < |before|
            && WriteAll(env, h, message, i).streams == before[c := before[c] + Taken(env, c, |h.log|, message)]
  {
    WriteAllOpen(env, h, message, i - 1);
    assert h.clients[i - 1].fd in WriteAll(env, h, message, i - 1).open;
  }

  /** The streams after i rounds: the first i connections have got their share, no other has changed. */
  ghost predicate Served(env: Env, entries: seq<Entry>, n: nat, message: string, i: nat,
                         before: seq<string>, after: seq<string>)
  {
    && i <= |entries| && |before| == |after|
    && (forall j :: 0 <= j < |entries| ==> entries[j].conn < |before|)
    && (forall j :: 0 <= j < i ==>
          after[entries[j].conn] == before[entries[j].conn] + Taken(env, entries[j].conn, n, message))
    && (forall c :: 0 <= c < |before| && after[c] != before[c] ==> exists j :: 0 <= j < i && entries[j].conn == c)
  }

  lemma ServedNext(env: Env, entries: seq<Entry>, n: nat, message: string, i: nat,
                   before: seq<string>, after: seq<string>)
    requires i < |entries| && NewestFirst(entries) && Served(env, entries, n, message, i, before, after)
    ensures var c := entries[i].conn;
            Served(env, entries, n, message, i + 1, before, after[c := after[c] + Taken(env, c, n, message)])
  {
    var c := entries[i].conn;
    forall j | 0 <= j < i ensures entries[j].conn != c {
      NewestFirstAt(entries, j, i);
    }
    assert after[c] == before[c];
  }

  lemma {:induction false} WriteAllStreams(env: Env, h: Hub, message: string, i: nat)
    requires i <= |h.clients| && WellFormed(h)
    ensures Served(env, h.clients, |h.log|, message, i, h.os.streams, WriteAll(env, h, message, i).streams)
  {
    if i > 0 {
      WriteAllStreams(env, h, message, i - 1);
      WriteAllStep(env, h, message, i);
      ServedNext(env, h.clients, |h.log|, message, i - 1, h.os.streams, WriteAll(env, h, message, i - 1).streams);
    } else {
      forall j | 0 <= j < |h.clients| ensures h.clients[j].conn < |h.os.streams| {
        ConnInRange(h, j);
      }
    }
  }

  lemma WriteAllIsBroadcast(env: Env, h: Hub, message: string)
    requires WellFormed(h)
    ensures WriteAll(env, h, message, |h.clients|) == Broadcast(env, h, message).os
  {
    WriteAllOpen(env, h, message, |h.clients|);
    var os, goal := WriteAll(env, h, message, |h.clients|), Broadcast(env, h, message).os;
    forall fd ensures fd in os.open <==> fd in goal.open {
      if fd in h.os.open {
        var j :| 0 <= j < |h.clients| && h.clients[j] == Entry(fd, h.os.open[fd]);
        assert fd in os.open <==> Full(env, h.clients[j].conn, |h.log|, message);
      }
    }
    assert forall fd | fd in os.open :: os.open[fd] == goal.open[fd];
    assert os.open == goal.open;
    WriteAllStreamsAreBroadcast(env, h, message);
  }

  lemma WriteAllStreamsAreBroadcast(env: Env, h: Hub, message: string)
    requires WellFormed(h)
    ensures WriteAll(env, h, message, |h.clients|).streams == Broadcast(env, h, message).os.streams
  {
    WriteAllStreams(env, h, message, |h.clients|);
    var after, goal := WriteAll(env, h, message, |h.clients|).streams, Broadcast(env, h, message).os.streams;
    forall c | 0 <= c < |after| ensures after[c] == goal[c] {
      SubscribedIsOpen(h, c);
      if Subscribed(h, c) {
        var j :| 0 <= j < |h.clients| && h.clients[j].conn == c;
      }
    }
  }
}
