/**
 * What the LIRC broadcaster (src/lirc.cpp:122-177) does to its subscribers, on values. The kernel's side of
 * the sockets is part of the state, so that descriptor numbers can be reused while connections cannot.
 * The pointer list itself is in Lirc.dfy, which proves its methods against this module.
 */
module Subscribers {
  import opened Sequences

  type Conn = nat

  /** The environment: what write() returns on a connection for the n-th message. Any function will do. */
  datatype Env = Env(write: (Conn, nat) -> int)

  /** The kernel: which connection each open descriptor refers to, and every byte each connection was sent. */
  datatype Os = Os(open: map<int, Conn>, streams: seq<string>) {
    ghost predicate Valid() {
      forall fd | fd in open :: open[fd] < |streams|
    }

    /** Some open descriptor refers to the connection. */
    predicate Reaches(c: Conn) {
      exists fd | fd in open :: open[fd] == c
    }
  }

  function Max(a: int, b: int): int { if a < b then b else a }

  /** write() answers -1 or a count of at most len bytes. An environment value outside stands for -1. */
  function Answer(env: Env, c: Conn, n: nat, len: nat): (r: int)
    ensures -1 <= r <= len
  {
    if -1 <= env.write(c, n) <= len then env.write(c, n) else -1
  }

  predicate Full(env: Env, c: Conn, n: nat, message: string) {
    Answer(env, c, n, |message|) == |message|
  }

  /** The bytes of the message the connection really received. */
  function Taken(env: Env, c: Conn, n: nat, message: string): string {
    message[..Max(0, Answer(env, c, n, |message|))]
  }

  function Write(env: Env, os: Os, fd: int, n: nat, message: string): (Os, int)
    requires os.Valid()
  {
    if fd !in os.open then (os, -1)
    else
      var c := os.open[fd];
      (os.(streams := os.streams[c := os.streams[c] + Taken(env, c, n, message)]), Answer(env, c, n, |message|))
  }

  function Close(os: Os, fd: int): Os {
    os.(open := os.open - {fd})
  }

  datatype Entry = Entry(fd: int, conn: Conn)

  /** The broadcaster: its client list in pointer order, the kernel, every message broadcast so far, and
      for each connection ever accepted the number of messages broadcast before it. */
  datatype Hub = Hub(clients: seq<Entry>, os: Os, log: seq<string>, born: seq<nat>)

  const EMPTY: Hub := Hub([], Os(map[], []), [], [])

  datatype Label = Accept(answer: int) | Message(text: string)

  /** accept() answers with a negative number or a descriptor that is not open. */
  predicate Accepted(h: Hub, answer: int) {
    answer >= 0 && answer !in h.os.open
  }

  function AcceptClient(h: Hub, answer: int): Hub {
    if Accepted(h, answer) then
      var c := |h.os.streams|;
      Hub([Entry(answer, c)] + h.clients, Os(h.os.open[answer := c], h.os.streams + [""]), h.log, h.born + [|h.log|])
    else h
  }

  function Mask(env: Env, h: Hub, message: string): (keep: seq<bool>)
    ensures |keep| == |h.clients|
  {
    seq(|h.clients|, i requires 0 <= i < |h.clients| => Full(env, h.clients[i].conn, |h.log|, message))
  }

  function Broadcast(env: Env, h: Hub, message: string): Hub {
    var n := |h.log|;
    Hub(Select(h.clients, Mask(env, h, message)),
        Os(map fd | fd in h.os.open && Full(env, h.os.open[fd], n, message) :: h.os.open[fd],
           seq(|h.os.streams|, c requires 0 <= c < |h.os.streams| =>
             if h.os.Reaches(c) then h.os.streams[c] + Taken(env, c, n, message) else h.os.streams[c])),
        h.log + [message],
        h.born)
  }

  function Step(env: Env, h: Hub, l: Label): Hub {
    match l
    case Accept(answer) => AcceptClient(h, answer)
    case Message(text) => Broadcast(env, h, text)
  }

  function Run(env: Env, labels: seq<Label>): Hub {
    if labels == [] then EMPTY
    else Step(env, Run(env, labels[..|labels| - 1]), labels[|labels| - 1])
  }

  // ------------------------------------------------------------ structure of every reachable state

  /** Each listed client has its own open descriptor. */
  ghost predicate Matched(h: Hub) {
    forall i :: 0 <= i < |h.clients| ==>
      h.clients[i].fd >= 0 && h.clients[i].fd in h.os.open && h.os.open[h.clients[i].fd] == h.clients[i].conn
  }

  /** No descriptor is open without a listed client. */
  ghost predicate NoLeak(h: Hub) {
    forall fd :: fd in h.os.open ==> Entry(fd, h.os.open[fd]) in h.clients
  }

  /** The list is in reverse order of acceptance. */
  ghost predicate NewestFirst(clients: seq<Entry>) {
    |clients| > 1 ==> clients[0].conn > clients[1].conn && NewestFirst(clients[1..])
  }

  lemma {:induction false} NewestFirstAt(clients: seq<Entry>, i: nat, j: nat)
    requires NewestFirst(clients) && i < j < |clients|
    ensures clients[i].conn > clients[j].conn
  {
    if i > 0 {
      NewestFirstAt(clients[1..], i - 1, j - 1);
    } else if j > 1 {
      NewestFirstAt(clients[1..], 0, j - 1);
    }
  }

  lemma {:induction false} NewestFirstPairs(clients: seq<Entry>)
    requires forall i, j :: 0 <= i < j < |clients| ==> clients[i].conn > clients[j].conn
    ensures NewestFirst(clients)
  {
    if |clients| > 1 {
      NewestFirstPairs(clients[1..]);
    }
  }

  ghost predicate Births(h: Hub) {
    && |h.born| == |h.os.streams|
    && (forall c :: 0 <= c < |h.born| ==> h.born[c] <= |h.log|)
    && (forall c, d :: 0 <= c < d < |h.born| ==> h.born[c] <= h.born[d])
  }

  /** Whenever the lock is free the kernel's table is exactly the client list, newest client first. */
  ghost predicate WellFormed(h: Hub) {
    h.os.Valid() && Births(h) && Matched(h) && NoLeak(h) && NewestFirst(h.clients)
  }

  lemma DistinctDescriptors(h: Hub, i: nat, j: nat)
    requires Matched(h) && NewestFirst(h.clients) && i < j < |h.clients|
    ensures h.clients[i].fd != h.clients[j].fd
  {
    NewestFirstAt(h.clients, i, j);
  }

  lemma ConnInRange(h: Hub, i: nat)
    requires h.os.Valid() && Matched(h) && i < |h.clients|
    ensures h.clients[i].conn < |h.os.streams|
  {
  }

  lemma AcceptWellFormed(h: Hub, answer: int)
    requires WellFormed(h)
    ensures WellFormed(AcceptClient(h, answer))
  {
    if Accepted(h, answer) {
      var h' := AcceptClient(h, answer);
      assert h'.clients[0] == Entry(answer, |h.os.streams|);
      assert NewestFirst(h'.clients) by {
        if h.clients != [] {
          ConnInRange(h, 0);
        }
        assert h'.clients[1..] == h.clients;
      }
      assert NoLeak(h') by {
        forall fd | fd in h'.os.open ensures Entry(fd, h'.os.open[fd]) in h'.clients {
          if fd != answer {
            assert Entry(fd, h.os.open[fd]) in h.clients;
          }
        }
      }
    }
  }

  lemma SelectNewestFirst(clients: seq<Entry>, keep: seq<bool>)
    requires |clients| == |keep| && NewestFirst(clients)
    ensures NewestFirst(Select(clients, keep))
  {
    SelectAt(clients, keep);
    var kept, at := Select(clients, keep), Positions(keep);
    forall i, j | 0 <= i < j < |kept| ensures kept[i].conn > kept[j].conn {
      NewestFirstAt(clients, at[i], at[j]);
    }
    NewestFirstPairs(kept);
  }

  lemma BroadcastMatched(env: Env, h: Hub, message: string)
    requires Matched(h)
    ensures Matched(Broadcast(env, h, message))
  {
    var h', keep := Broadcast(env, h, message), Mask(env, h, message);
    SelectAt(h.clients, keep);
    forall k | 0 <= k < |h'.clients|
      ensures h'.clients[k].fd >= 0 && h'.clients[k].fd in h'.os.open
      ensures h'.os.open[h'.clients[k].fd] == h'.clients[k].conn
    {
      assert keep[Positions(keep)[k]] && h'.clients[k] == h.clients[Positions(keep)[k]];
    }
  }

  lemma BroadcastNoLeak(env: Env, h: Hub, message: string)
    requires NoLeak(h)
    ensures NoLeak(Broadcast(env, h, message))
  {
    var h', keep := Broadcast(env, h, message), Mask(env, h, message);
    SelectAt(h.clients, keep);
    forall fd | fd in h'.os.open ensures Entry(fd, h'.os.open[fd]) in h'.clients {
      var i :| 0 <= i < |h.clients| && h.clients[i] == Entry(fd, h.os.open[fd]);
      var k := KeptPosition(keep, i);
      assert h'.clients[k] == h.clients[i];
    }
  }

  lemma BroadcastWellFormed(env: Env, h: Hub, message: string)
    requires WellFormed(h)
    ensures WellFormed(Broadcast(env, h, message))
  {
    BroadcastMatched(env, h, message);
    BroadcastNoLeak(env, h, message);
    SelectNewestFirst(h.clients, Mask(env, h, message));
  }

  /** A connection is subscribed when some list node holds it. */
  ghost predicate Subscribed(h: Hub, c: Conn) {
    exists i :: 0 <= i < |h.clients| && h.clients[i].conn == c
  }

  lemma SubscribedIsOpen(h: Hub, c: Conn)
    requires WellFormed(h)
    ensures Subscribed(h, c) <==> h.os.Reaches(c)
  {
    if Subscribed(h, c) {
      var i :| 0 <= i < |h.clients| && h.clients[i].conn == c;
      assert h.os.open[h.clients[i].fd] == c;
    }
    if h.os.Reaches(c) {
      var fd :| fd in h.os.open && h.os.open[fd] == c;
      assert Entry(fd, c) in h.clients;
    }
  }

  lemma SubscribedAfter(env: Env, h: Hub, message: string, c: Conn)
    ensures Subscribed(Broadcast(env, h, message), c) <==> Subscribed(h, c) && Full(env, c, |h.log|, message)
  {
    var h', keep := Broadcast(env, h, message), Mask(env, h, message);
    SelectAt(h.clients, keep);
    if Subscribed(h, c) && Full(env, c, |h.log|, message) {
      var i :| 0 <= i < |h.clients| && h.clients[i].conn == c;
      var k := KeptPosition(keep, i);
      assert h'.clients[k] == h.clients[i];
    }
    if Subscribed(h', c) {
      var k :| 0 <= k < |h'.clients| && h'.clients[k].conn == c;
      assert h.clients[Positions(keep)[k]].conn == c;
    }
  }

  // ------------------------------------------------------------ what write() answers decides

  /** A write is complete exactly if write() answered the length of the message. */
  lemma FullMeans(env: Env, c: Conn, n: nat, message: string)
    ensures Full(env, c, n, message) <==> env.write(c, n) == |message|
  {
  }

  /** The beginning of a message that write() took, by its answer; -1 took nothing. */
  function Beginning(message: string, written: int): string {
    if 0 <= written <= |message| then message[..written] else ""
  }

  lemma TakenMeans(env: Env, c: Conn, n: nat, message: string)
    ensures Taken(env, c, n, message) == Beginning(message, env.write(c, n))
  {
  }

  /**
   * What one broadcast does to a listed client is decided by the answer of write() alone: it stays listed exactly if
   * the answer is the length of the message, and its stream grows by as many of the first bytes as were written. A
   * client that is not listed is written nothing.
   */
  lemma WriteDecides(env: Env, h: Hub, message: string, c: Conn)
    requires WellFormed(h) && c < |h.os.streams|
    ensures var h', written := Broadcast(env, h, message), env.write(c, |h.log|);
            && (Subscribed(h', c) <==> Subscribed(h, c) && written == |message|)
            && |h'.os.streams| == |h.os.streams|
            && h'.os.streams[c] ==
               h.os.streams[c] + (if Subscribed(h, c) then Beginning(message, written) else "")
  {
    SubscribedAfter(env, h, message, c);
    SubscribedIsOpen(h, c);
    FullMeans(env, c, |h.log|, message);
    TakenMeans(env, c, |h.log|, message);
    hide Full, Taken, Beginning, Subscribed, WellFormed;
  }

  /** What an accept does: a usable answer puts a new connection, with that descriptor and nothing received, at the
      front of the list; any other changes nothing. */
  lemma AcceptDecides(h: Hub, answer: int)
    ensures var h' := AcceptClient(h, answer);
            if answer >= 0 && answer !in h.os.open then
              && h'.clients == [Entry(answer, |h.os.streams|)] + h.clients
              && h'.os.open == h.os.open[answer := |h.os.streams|] && h'.os.streams == h.os.streams + [""]
              && h'.born == h.born + [|h.log|] && h'.log == h.log
            else h' == h
  {
  }

  // ------------------------------------------------------------ what a connection has received

  /** The first message from number b on that was not written completely; |log| when there is none. */
  function FirstBad(env: Env, c: Conn, log: seq<string>, b: nat): (m: nat)
    requires b <= |log|
    ensures b <= m <= |log|
    ensures forall n :: b <= n < m ==> Full(env, c, n, log[n])
    ensures m < |log| ==> !Full(env, c, m, log[m])
    decreases |log| - b
  {
    if b == |log| || !Full(env, c, b, log[b]) then b else FirstBad(env, c, log, b + 1)
  }

  /** All messages since b up to the first incomplete one, and what was taken of that one. */
  function Received(env: Env, c: Conn, log: seq<string>, b: nat): string
    requires b <= |log|
  {
    var m := FirstBad(env, c, log, b);
    Flatten(log[b..m]) + (if m < |log| then Taken(env, c, m, log[m]) else "")
  }

  lemma FirstBadSnoc(env: Env, c: Conn, log: seq<string>, b: nat, message: string)
    requires b <= |log|
    ensures FirstBad(env, c, log + [message], b) ==
            if FirstBad(env, c, log, b) == |log| && Full(env, c, |log|, message) then |log| + 1
            else FirstBad(env, c, log, b)
  {
    var m, m' := FirstBad(env, c, log, b), FirstBad(env, c, log + [message], b);
    assert forall n :: b <= n < |log| ==> (log + [message])[n] == log[n];
    if m < m' {
      assert Full(env, c, m, (log + [message])[m]);
    } else if m' < m {
      assert false;
    }
  }

  lemma ReceivedSnoc(env: Env, c: Conn, log: seq<string>, b: nat, message: string)
    requires b <= |log|
    ensures Received(env, c, log + [message], b) ==
            Received(env, c, log, b) + (if FirstBad(env, c, log, b) == |log| then Taken(env, c, |log|, message) else "")
  {
    FirstBadSnoc(env, c, log, b, message);
    if FirstBad(env, c, log, b) < |log| {
      ReceivedFrozen(env, c, log, b, message);
    } else {
      ReceivedMore(env, c, log, b, message);
    }
  }

  lemma ReceivedFrozen(env: Env, c: Conn, log: seq<string>, b: nat, message: string)
    requires b <= |log| && FirstBad(env, c, log + [message], b) == FirstBad(env, c, log, b) < |log|
    ensures Received(env, c, log + [message], b) == Received(env, c, log, b)
  {
    var m := FirstBad(env, c, log, b);
    assert (log + [message])[b..m] == log[b..m];
  }

  lemma ReceivedMore(env: Env, c: Conn, log: seq<string>, b: nat, message: string)
    requires b <= |log| == FirstBad(env, c, log, b)
    requires FirstBad(env, c, log + [message], b) == if Full(env, c, |log|, message) then |log| + 1 else |log|
    ensures Received(env, c, log + [message], b) == Received(env, c, log, b) + Taken(env, c, |log|, message)
  {
    var log', n := log + [message], |log|;
    var sofar, part := Flatten(log[b..n]), Taken(env, c, n, message);
    assert Received(env, c, log, b) == sofar + "" == sofar;
    assert log'[b..n] == log[b..n];
    if Full(env, c, n, message) {
      FullTaken(env, c, n, message);
      assert log'[b..n + 1] == log[b..n] + [message];
      FlattenSnoc(log[b..n], message);
      assert Received(env, c, log', b) == (sofar + part) + "" == sofar + part;
    } else {
      assert log'[n] == message;
    }
  }

  lemma FullTaken(env: Env, c: Conn, n: nat, message: string)
    requires Full(env, c, n, message)
    ensures Taken(env, c, n, message) == message
  {
  }

  /** The state is a function of the environment, the messages and the moments of acceptance: the bytes of
      every connection ever accepted, and which connections are still subscribed. */
  ghost predicate Faithful(env: Env, h: Hub)
    requires WellFormed(h)
  {
    forall c :: 0 <= c < |h.born| ==>
      && h.os.streams[c] == Received(env, c, h.log, h.born[c])
      && (Subscribed(h, c) <==> FirstBad(env, c, h.log, h.born[c]) == |h.log|)
  }

  lemma AcceptFaithful(env: Env, h: Hub, answer: int)
    requires WellFormed(h) && Faithful(env, h)
    ensures WellFormed(AcceptClient(h, answer)) && Faithful(env, AcceptClient(h, answer))
  {
    AcceptWellFormed(h, answer);
    if Accepted(h, answer) {
      var h' := AcceptClient(h, answer);
      var newest := |h.born|;
      assert h.log[|h.log|..] == [];
      forall c | 0 <= c < |h'.born| ensures Subscribed(h', c) <==> c == newest || Subscribed(h, c) {
        assert h'.clients[0].conn == newest;
        assert forall i :: 0 <= i < |h.clients| ==> h'.clients[i + 1] == h.clients[i];
      }
      assert !Subscribed(h, newest);
    }
  }

  lemma BroadcastFaithful(env: Env, h: Hub, message: string)
    requires WellFormed(h) && Faithful(env, h)
    ensures WellFormed(Broadcast(env, h, message)) && Faithful(env, Broadcast(env, h, message))
  {
    BroadcastWellFormed(env, h, message);
    var h' := Broadcast(env, h, message);
    forall c | 0 <= c < |h'.born|
      ensures h'.os.streams[c] == Received(env, c, h'.log, h'.born[c])
      ensures Subscribed(h', c) <==> FirstBad(env, c, h'.log, h'.born[c]) == |h'.log|
    {
      SubscribedIsOpen(h, c);
      SubscribedAfter(env, h, message, c);
      FirstBadSnoc(env, c, h.log, h.born[c], message);
      ReceivedSnoc(env, c, h.log, h.born[c], message);
    }
  }

  /** Main result: every state of every run, whatever accept and write answer. */
  lemma {:induction false} EveryRunIsFaithful(env: Env, labels: seq<Label>)
    ensures WellFormed(Run(env, labels)) && Faithful(env, Run(env, labels))
  {
    if labels != [] {
      var n := |labels| - 1;
      EveryRunIsFaithful(env, labels[..n]);
      match labels[n]
      case Accept(answer) => AcceptFaithful(env, Run(env, labels[..n]), answer);
      case Message(text) => BroadcastFaithful(env, Run(env, labels[..n]), text);
    }
  }

  /** A client still in the list has received exactly the messages broadcast since it was accepted. */
  lemma LiveClientHasEverything(env: Env, h: Hub, c: Conn)
    requires WellFormed(h) && Faithful(env, h) && Subscribed(h, c)
    ensures c < |h.born| == |h.os.streams| && h.born[c] <= |h.log|
    ensures h.os.streams[c] == Flatten(h.log[h.born[c]..])
  {
    SubscribedIsOpen(h, c);
    assert h.log[h.born[c]..|h.log|] == h.log[h.born[c]..];
  }

  /** A dropped client has received all messages up to some message, and of that one a proper beginning. */
  lemma DroppedClientHasPrefix(env: Env, h: Hub, c: Conn) returns (m: nat, part: string)
    requires WellFormed(h) && Faithful(env, h) && c < |h.os.streams| && !Subscribed(h, c)
    ensures |h.born| == |h.os.streams| && h.born[c] <= m < |h.log|
    ensures h.os.streams[c] == Flatten(h.log[h.born[c]..m]) + part
    ensures part <= h.log[m] && (part == h.log[m] ==> part == "")
  {
    m := FirstBad(env, c, h.log, h.born[c]);
    part := Taken(env, c, m, h.log[m]);
  }

  /** Both cases together, over every run of accepts and broadcasts with any answers. */
  lemma EveryRunRefinesTheLog(env: Env, labels: seq<Label>, c: Conn)
    requires c < |Run(env, labels).os.streams|
    ensures var h := Run(env, labels);
            && |h.born| == |h.os.streams| && h.born[c] <= |h.log|
            && if Subscribed(h, c) then h.os.streams[c] == Flatten(h.log[h.born[c]..])
               else exists m: nat, part: string ::
                 && h.born[c] <= m < |h.log| && part <= h.log[m] && (part == h.log[m] ==> part == "")
                 && h.os.streams[c] == Flatten(h.log[h.born[c]..m]) + part
  {
    EveryRunIsFaithful(env, labels);
    var h := Run(env, labels);
    if Subscribed(h, c) {
      LiveClientHasEverything(env, h, c);
    } else {
      var m, part := DroppedClientHasPrefix(env, h, c);
    }
  }

  /** Accepted connections are the disjoint union of the listed and the closed ones; an open descriptor is
      never leaked: there are as many as list nodes. */
  lemma ConnectionsAreConserved(env: Env, labels: seq<Label>)
    ensures var h := Run(env, labels);
            && (forall c :: Subscribed(h, c) <==> h.os.Reaches(c))
            && |h.os.open| == |h.clients|
            && forall i, j :: 0 <= i < j < |h.clients| ==> h.clients[i].fd != h.clients[j].fd
  {
    EveryRunIsFaithful(env, labels);
    var h := Run(env, labels);
    forall c ensures Subscribed(h, c) <==> h.os.Reaches(c) {
      SubscribedIsOpen(h, c);
    }
    forall i, j | 0 <= i < j < |h.clients| ensures h.clients[i].fd != h.clients[j].fd {
      DistinctDescriptors(h, i, j);
    }
    CountDescriptors(h.clients);
    forall fd ensures fd in h.os.open <==> fd in Descriptors(h.clients) {
      if fd in h.os.open {
        assert Entry(fd, h.os.open[fd]) in h.clients;
      }
    }
    assert h.os.open.Keys == Descriptors(h.clients);
  }

  ghost function Descriptors(entries: seq<Entry>): set<int> {
    set e | e in entries :: e.fd
  }

  lemma {:induction false} CountDescriptors(entries: seq<Entry>)
    requires forall i, j :: 0 <= i < j < |entries| ==> entries[i].fd != entries[j].fd
    ensures |Descriptors(entries)| == |entries|
  {
    if entries != [] {
      CountDescriptors(entries[1..]);
      assert Descriptors(entries) == {entries[0].fd} + Descriptors(entries[1..]);
    }
  }

  lemma FlattenFrom(log: seq<string>, b: nat, d: nat)
    requires b <= d <= |log|
    ensures Flatten(log[b..]) == Flatten(log[b..d]) + Flatten(log[d..])
  {
    assert log[b..] == log[b..d] + log[d..];
    FlattenConcat(log[b..d], log[d..]);
  }

  /** The history of a client is a suffix of the history of every client behind it in the list. */
  lemma HistoriesNest(env: Env, labels: seq<Label>, i: nat, j: nat) returns (earlier: string)
    requires i < j < |Run(env, labels).clients|
    ensures var h := Run(env, labels);
            && h.clients[i].conn < |h.os.streams| && h.clients[j].conn < |h.os.streams|
            && h.os.streams[h.clients[j].conn] == earlier + h.os.streams[h.clients[i].conn]
  {
    var h := Run(env, labels);
    EveryRunIsFaithful(env, labels);
    NewestFirstAt(h.clients, i, j);
    var youngest, oldest := h.clients[i].conn, h.clients[j].conn;
    hide Run, Faithful, NewestFirst, Matched, NoLeak, Flatten;
    LiveClientHasEverything(env, h, youngest);
    LiveClientHasEverything(env, h, oldest);
    earlier := Flatten(h.log[h.born[oldest]..h.born[youngest]]);
    FlattenFrom(h.log, h.born[oldest], h.born[youngest]);
  }

  // ------------------------------------------------------------ in terms of the schedule alone

  /** The messages of a schedule, in order. */
  function Texts(labels: seq<Label>): seq<string> {
    if labels == [] then []
    else
      Texts(labels[..|labels| - 1]) +
      match labels[|labels| - 1]
      case Message(text) => [text]
      case Accept(_) => []
  }

  /** The log is what was broadcast. */
  lemma {:induction false} LogIsTexts(env: Env, labels: seq<Label>)
    ensures Run(env, labels).log == Texts(labels)
  {
    if labels != [] {
      LogIsTexts(env, labels[..|labels| - 1]);
    }
  }

  lemma {:induction false} TextsAppend(a: seq<Label>, b: seq<Label>)
    ensures Texts(a + b) == Texts(a) + Texts(b)
  {
    if b == [] {
      assert a + b == a;
    } else {
      var n := |b| - 1;
      TextsAppend(a, b[..n]);
      assert (a + b)[..|a + b| - 1] == a + b[..n];
    }
  }

  /** A connection is born at its accept. */
  lemma BornAtAccept(env: Env, labels: seq<Label>, answer: int)
    requires Accepted(Run(env, labels), answer)
    ensures var h := Run(env, labels + [Accept(answer)]);
            |h.born| == |Run(env, labels).born| + 1 && h.born[|h.born| - 1] == |Run(env, labels).log|
  {
    assert (labels + [Accept(answer)])[..|labels|] == labels;
  }

  lemma {:induction false} HistoryGrows(env: Env, labels: seq<Label>, more: seq<Label>)
    ensures Run(env, labels).log <= Run(env, labels + more).log
    ensures Run(env, labels).born <= Run(env, labels + more).born
  {
    if more == [] {
      assert labels + more == labels;
    } else {
      var n := |more| - 1;
      HistoryGrows(env, labels, more[..n]);
      assert (labels + more)[..|labels + more| - 1] == labels + more[..n];
    }
  }

  /** The part of a schedule behind an accept adds its messages to the log, and leaves the birth where it was. */
  lemma SinceAccept(env: Env, before: seq<Label>, answer: int, later: seq<Label>)
    requires Accepted(Run(env, before), answer)
    ensures var c, h := |Run(env, before).born|, Run(env, before + [Accept(answer)] + later);
            c < |h.born| && h.born[c] <= |h.log| && h.log[h.born[c]..] == Texts(later)
  {
    hide Run, Accepted, Texts;
    var joined := before + [Accept(answer)];
    BornAtAccept(env, before, answer);
    HistoryGrows(env, joined, later);
    LogIsTexts(env, before);
    LogIsTexts(env, joined + later);
    TextsAppend(joined, later);
    NoText(before, answer);
  }

  lemma DropThenIndex(log: seq<string>, b: nat, m: nat)
    requires b <= m < |log|
    ensures log[b..][m - b] == log[m] && log[b..][..m - b] == log[b..m]
  {
  }

  lemma NoText(before: seq<Label>, answer: int)
    ensures Texts(before + [Accept(answer)]) == Texts(before)
  {
    assert (before + [Accept(answer)])[..|before|] == before;
  }

  /**
   * Whatever happened before it connected: a client that is still subscribed has received the concatenation of the
   * messages broadcast after its accept, and one that was dropped a concatenation of the first of them and a
   * proper beginning of the next.
   */
  lemma ClientReceivesLaterMessages(env: Env, before: seq<Label>, answer: int, later: seq<Label>)
    returns (m: nat, part: string)
    requires Accepted(Run(env, before), answer)
    ensures var c, h := |Run(env, before).born|, Run(env, before + [Accept(answer)] + later);
            && c < |h.os.streams|
            && if Subscribed(h, c) then h.os.streams[c] == Flatten(Texts(later))
               else && m < |Texts(later)| && part <= Texts(later)[m] && (part == Texts(later)[m] ==> part == "")
                    && h.os.streams[c] == Flatten(Texts(later)[..m]) + part
  {
    var c, h := |Run(env, before).born|, Run(env, before + [Accept(answer)] + later);
    m, part := 0, "";
    SinceAccept(env, before, answer, later);
    EveryRunIsFaithful(env, before + [Accept(answer)] + later);
    hide Run, Accepted, Texts, Flatten, Faithful, Matched, NoLeak, NewestFirst, Subscribed;
    if Subscribed(h, c) {
      LiveClientHasEverything(env, h, c);
    } else {
      m, part := DroppedClientHasPrefix(env, h, c);
      DropThenIndex(h.log, h.born[c], m);
      m := m - h.born[c];
    }
  }

  /** The first message from number b on that write() did not answer with its length. */
  lemma FirstBadMeans(env: Env, c: Conn, log: seq<string>, b: nat)
    requires b <= |log|
    ensures var m := FirstBad(env, c, log, b);
            && b <= m <= |log| && (forall n :: b <= n < m ==> env.write(c, n) == |log[n]|)
            && (m < |log| ==> env.write(c, m) != |log[m]|)
  {
    var m := FirstBad(env, c, log, b);
    forall n | b <= n < m ensures env.write(c, n) == |log[n]| {
      FullMeans(env, c, n, log[n]);
    }
    if m < |log| {
      FullMeans(env, c, m, log[m]);
    }
  }

  /** write() took every message behind the first n0 completely from this connection. */
  ghost predicate TookAll(env: Env, c: Conn, n0: nat, messages: seq<string>) {
    forall i :: 0 <= i < |messages| ==> env.write(c, n0 + i) == |messages[i]|
  }

  /**
   * What the answers of write() to a connection make of it: it is listed exactly if every message was taken
   * completely, and then it has received them all; otherwise message m is the first that was not, and it has
   * received the ones before and as much of that one as was written.
   */
  ghost predicate Fate(env: Env, c: Conn, n0: nat, messages: seq<string>, m: nat, listed: bool, stream: string) {
    && (listed <==> TookAll(env, c, n0, messages))
    && if listed then stream == Flatten(messages)
       else && m < |messages| && TookAll(env, c, n0, messages[..m]) && env.write(c, n0 + m) != |messages[m]|
            && stream == Flatten(messages[..m]) + Beginning(messages[m], env.write(c, n0 + m))
  }

  lemma ReceivedMeans(env: Env, c: Conn, log: seq<string>, b: nat) returns (m: nat)
    requires b <= |log|
    ensures Fate(env, c, b, log[b..], m, FirstBad(env, c, log, b) == |log|, Received(env, c, log, b))
  {
    var bad := FirstBad(env, c, log, b);
    m := bad - b;
    FirstBadMeans(env, c, log, b);
    assert forall i :: 0 <= i < |log| - b ==> log[b..][i] == log[b + i];
    if bad < |log| {
      TakenMeans(env, c, bad, log[bad]);
      DropThenIndex(log, b, bad);
    } else {
      assert log[b..bad] == log[b..];
    }
  }

  /** The fate of a client over a schedule, in terms of the answers of write() alone, whatever happened before it was
      accepted. */
  lemma WritesDecide(env: Env, before: seq<Label>, answer: int, later: seq<Label>) returns (m: nat)
    requires Accepted(Run(env, before), answer)
    ensures var c, h := |Run(env, before).born|, Run(env, before + [Accept(answer)] + later);
            && c < |h.os.streams|
            && Fate(env, c, |Texts(before)|, Texts(later), m, Subscribed(h, c), h.os.streams[c])
  {
    var c, h := |Run(env, before).born|, Run(env, before + [Accept(answer)] + later);
    SinceAccept(env, before, answer, later);
    EveryRunIsFaithful(env, before + [Accept(answer)] + later);
    BirthNumber(env, before, answer, later);
    hide Run, Accepted, Texts, Matched, NoLeak, NewestFirst, Subscribed, Received, FirstBad, Fate;
    m := ReceivedMeans(env, c, h.log, h.born[c]);
  }

  lemma BirthNumber(env: Env, before: seq<Label>, answer: int, later: seq<Label>)
    requires Accepted(Run(env, before), answer)
    ensures var c, h := |Run(env, before).born|, Run(env, before + [Accept(answer)] + later);
            c < |h.born| && h.born[c] == |Texts(before)|
  {
    hide Run, Accepted, Texts;
    BornAtAccept(env, before, answer);
    HistoryGrows(env, before + [Accept(answer)], later);
    LogIsTexts(env, before);
  }
}
