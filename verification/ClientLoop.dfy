/** The event loop of one worker with its client records (src/cew_client.c), in place: the methods are the
    callbacks, and each is proved to be the step of module Connections that it stands for. */
module ClientLoop {
  import opened Text
  import opened Connections
  import Http = HttpResponse

  /** tsClientEv without its watchers; a descriptor of 0 counts as none. */
  datatype Record = Record(sockfd: int, sendBuff: string, sending: bool)

  datatype Sent = Sent(c: Conn, text: string)

  /** A worker that is still emptying the socket of c. */
  ghost function Stopped(k: Worker, c: Conn): Worker {
    k.(watching := k.watching - {Timeout(c), Readable(c)}, pending := k.pending - {Timeout(c), Readable(c)})
  }

  // ---------------------------------------------------------------- descriptors

  /** The descriptors that connections were registered with, in the order given, without those that are 0. */
  ghost function Descriptors(cs: seq<Conn>, given: map<Conn, int>): seq<int> {
    if cs == [] then []
    else
      var c := cs[|cs| - 1];
      Descriptors(cs[..|cs| - 1], given) + if c in given && given[c] != 0 then [given[c]] else []
  }

  /** Live records have the descriptor they were registered with, and exactly the descriptors of the finished
      connections have been closed, once each. */
  ghost predicate SocketsInv(records: map<Conn, Record>, given: map<Conn, int>, finished: seq<Conn>, closed: seq<int>) {
    && (forall c <- records :: c in given && records[c].sockfd == given[c])
    && (forall c <- finished :: c in given && c !in records)
    && (forall i, j :: 0 <= i < j < |finished| ==> finished[i] != finished[j])
    && closed == Descriptors(finished, given)
  }

  lemma {:induction false} DescriptorsFrame(cs: seq<Conn>, given: map<Conn, int>, c: Conn, fd: int)
    requires c !in cs
    ensures Descriptors(cs, given[c := fd]) == Descriptors(cs, given)
    decreases |cs|
  {
    if cs != [] { DescriptorsFrame(cs[..|cs| - 1], given, c, fd); }
  }

  lemma RegisterSocket(records: map<Conn, Record>, given: map<Conn, int>, finished: seq<Conn>, closed: seq<int>,
                       c: Conn, fd: int)
    requires SocketsInv(records, given, finished, closed) && c !in given
    ensures SocketsInv(records[c := Record(fd, "", false)], given[c := fd], finished, closed)
  {
    assert c !in finished;
    DescriptorsFrame(finished, given, c, fd);
  }

  lemma CloseSocket(records: map<Conn, Record>, given: map<Conn, int>, finished: seq<Conn>, closed: seq<int>, c: Conn)
    requires SocketsInv(records, given, finished, closed) && c in records
    ensures SocketsInv(records - {c}, given, finished + [c],
                       closed + if records[c].sockfd != 0 then [records[c].sockfd] else [])
  {
    assert c !in finished;
    assert (finished + [c])[..|finished|] == finished;
    assert forall d <- finished + [c] :: d in finished || d == c;
  }

  lemma Refill(records: map<Conn, Record>, given: map<Conn, int>, finished: seq<Conn>, closed: seq<int>,
               c: Conn, r: Record)
    requires SocketsInv(records, given, finished, closed) && c in records && r.sockfd == records[c].sockfd
    ensures SocketsInv(records[c := r], given, finished, closed)
  {
  }

  // ---------------------------------------------------------------- the loop

  class Loop {
    var channel: seq<Conn>
    var received: seq<Conn>
    var records: map<Conn, Record>
    var watching: set<Watch>
    var pending: set<Watch>
    var failed: seq<Conn>
    var finished: seq<Conn>
    var handled: seq<Conn>
    var sent: seq<Sent>                 // what was handed to send()
    var closed: seq<int>                // descriptors that were closed
    ghost var given: map<Conn, int>     // the descriptor of every connection ever registered

    ghost function View(): Worker
      reads this
    {
      Worker(channel, received, records.Keys, watching, pending, failed, finished, handled)
    }

    /** One response per handled request, in the order of the requests. */
    ghost predicate Answers()
      reads this
    {
      |sent| == |handled| && forall i :: 0 <= i < |sent| ==> sent[i].c == handled[i]
    }

    ghost predicate Valid()
      reads this
    {
      && Answers() && SocketsInv(records, given, finished, closed)
      && Increasing(received + channel) && forall c <- given :: c in received
    }

    constructor ()
      ensures Valid() && View() == IDLE && sent == [] && closed == [] && given == map[]
    {
      channel, received, records, watching, pending := [], [], map[], {}, {};
      failed, finished, handled, sent, closed, given := [], [], [], [], [], map[];
    }

    /** The master's message arrives. */
    method Arrive(c: Conn)
      requires Valid() && forall d <- received + channel :: d < c
      modifies this`channel
      ensures Valid() && View() == old(View()).(channel := old(channel) + [c])
    {
      assert received + (channel + [c]) == received + channel + [c];
      forall i | 0 <= i < |received + channel| ensures (received + channel)[i] < c {
        assert (received + channel)[i] in received + channel;
      }
      channel := channel + [c];
    }

    /** receive_fd_from_worker: the next connection leaves the channel. */
    method Take() returns (c: Conn)
      requires Valid() && channel != []
      modifies this`channel, this`received
      ensures Valid() && c == old(channel[0]) && c !in given
      ensures channel == old(channel)[1..] && received == old(received) + [c]
    {
      c := channel[0];
      NotYetReceived(View());
      assert received + channel == received + [c] + channel[1..];
      channel, received := channel[1..], received + [c];
    }

    /** The record of a client with its two watchers. */
    method StartClient(c: Conn, fd: int)
      requires Valid() && c in received && c !in given
      modifies this`records, this`watching, this`given
      ensures Valid() && records == old(records)[c := Record(fd, "", false)] && given == old(given)[c := fd]
      ensures watching == old(watching) + {Timeout(c), Readable(c)}
    {
      RegisterSocket(records, given, finished, closed, c, fd);
      records, given := records[c := Record(fd, "", false)], given[c := fd];
      watching := watching + {Timeout(c)};
      watching := watching + {Readable(c)};
      assert watching == old(watching) + {Timeout(c), Readable(c)};
    }

    /** workerp_ipc_callback and client_register_ev for the descriptor at the head of the channel. Without a
        descriptor in the message, or without a peer address, no watcher is started. */
    method IpcCallback(fd: int, peer: bool)
      requires Valid() && channel != []
      modifies this`channel, this`received, this`records, this`watching, this`failed, this`given
      ensures Valid() && View() == Register(old(View()), peer)
      ensures var c := old(channel[0]);
        && records == (if peer then old(records)[c := Record(fd, "", false)] else old(records))
        && given == if peer then old(given)[c := fd] else old(given)
    {
      var c := Take();
      if peer {
        StartClient(c, fd);
        assert records.Keys == old(records.Keys) + {c};
      } else {
        failed := failed + [c];
      }
    }

    /** The loop that empties a socket before it is closed, for the results of its reads so far: it ends with the
        first read that returns 0, and goes on as long as there is none. An error does not end it. */
    method Drain(drained: seq<int>) returns (n: Option<nat>)
      ensures n.None? <==> 0 !in drained
      ensures n.Some? ==> n.value < |drained| && drained[n.value] == 0 && 0 !in drained[..n.value]
    {
      var i := 0;
      while i < |drained|
        invariant i <= |drained| && 0 !in drained[..i]
      {
        if drained[i] == 0 { return Some(i); }
        assert drained[..i + 1] == drained[..i] + [drained[i]];
        i := i + 1;
      }
      assert drained[..i] == drained;
      return None;
    }

    /** ev_timer_stop and ev_io_stop. */
    method StopWatchers(c: Conn)
      modifies this`watching, this`pending
      ensures View() == Stopped(old(View()), c)
    {
      watching, pending := watching - {Timeout(c)}, pending - {Timeout(c)};
      watching, pending := watching - {Readable(c)}, pending - {Readable(c)};
      assert watching == old(watching) - {Timeout(c), Readable(c)};
      assert pending == old(pending) - {Timeout(c), Readable(c)};
    }

    /** The socket is shut down, emptied and closed, if there is one. */
    method CloseDown(r: Record, drained: seq<int>) returns (done: bool)
      modifies this`closed
      ensures done <==> r.sockfd == 0 || 0 in drained
      ensures closed == old(closed) + Closes(done, r)
    {
      if r.sockfd != 0 {
        var n := Drain(drained);
        if n.None? { return false; }
        closed := closed + [r.sockfd];
      }
      return true;
    }

    /** client_deregister. It is done once the drain loop ends; until then only the watchers are stopped. */
    method Remove(c: Conn, drained: seq<int>) returns (done: bool)
      requires Valid() && c in records
      modifies this`records, this`watching, this`pending, this`finished, this`closed
      ensures Valid() && (done <==> old(records)[c].sockfd == 0 || 0 in drained)
      ensures View() == if done then Deregister(old(View()), c) else Stopped(old(View()), c)
      ensures closed == old(closed) + Closes(done, old(records)[c])
      ensures records == if done then old(records) - {c} else old(records)
    {
      StopWatchers(c);
      CloseSocket(records, given, finished, closed, c);
      done := CloseDown(records[c], drained);
      if done {
        records := records - {c};
        finished := finished + [c];
        assert records.Keys == old(records.Keys) - {c};
      }
    }

    /** client_callback_timeout. */
    method TimeoutCallback(c: Conn, drained: seq<int>) returns (done: bool)
      requires Valid() && c in records
      modifies this`records, this`watching, this`pending, this`finished, this`closed
      ensures Valid() && (done <==> old(records)[c].sockfd == 0 || 0 in drained)
      ensures View() == if done then Callback(old(View()), Timeout(c), Error) else Stopped(old(View()), c)
      ensures closed == old(closed) + Closes(done, old(records)[c])
      ensures records == if done then old(records) - {c} else old(records)
    {
      done := Remove(c, drained);
    }

    /** client_callback_serve: the answer to the received text is sent, and the connection ends. */
    method ServeCallback(c: Conn, got: Received, text: string, disk: Http.Disk, drained: seq<int>) returns (done: bool)
      requires Valid() && c in records
      modifies this`records, this`watching, this`pending, this`finished, this`closed, this`handled, this`sent
      ensures Valid() && (done <==> got.Error? || old(records)[c].sockfd == 0 || 0 in drained)
      ensures done ==> View() == Callback(old(View()), Readable(c), got)
      ensures !done ==> View().(handled := old(handled)) == Stopped(old(View()), c)
      ensures sent == old(sent) + if got.Data? then [Sent(c, Http.Reply(text, disk))] else []
      ensures closed == old(closed) + Closes(done && !got.Error?, old(records)[c])
      ensures if got.Error? || !done then c in records && records[c].sockfd == old(records)[c].sockfd else c !in records
      ensures records - {c} == old(records) - {c}
    {
      match got {
        case Error => return true;
        case Closed => done := Remove(c, drained);
        case Data =>
          Answer(c, text, disk);
          done := Remove(c, drained);
      }
    }

    /** http_handle_client_request: the send buffer is set, sent and freed. */
    method Answer(c: Conn, text: string, disk: Http.Disk)
      requires Valid() && c in records
      modifies this`records, this`handled, this`sent
      ensures Valid() && View() == old(View()).(handled := old(handled) + [c])
      ensures sent == old(sent) + [Sent(c, Http.Reply(text, disk))]
      ensures records[c].sockfd == old(records)[c].sockfd && records - {c} == old(records) - {c}
    {
      var reply := Http.Handle(text, disk);
      Keep(c, records[c].(sendBuff := reply, sending := true));
      Keep(c, records[c].(sendBuff := "", sending := false));
      sent, handled := sent + [Sent(c, reply)], handled + [c];
    }

    /** A record is updated without its descriptor. */
    method Keep(c: Conn, r: Record)
      requires SocketsInv(records, given, finished, closed) && c in records && r.sockfd == records[c].sockfd
      modifies this`records
      ensures SocketsInv(records, given, finished, closed) && c in records && records[c] == r
      ensures records.Keys == old(records.Keys) && records - {c} == old(records) - {c}
    {
      Refill(records, given, finished, closed, c, r);
      records := records[c := r];
    }
  }

  /** The descriptor that the end of a connection closes, if there is one. */
  function Closes(done: bool, r: Record): seq<int> { if done && r.sockfd != 0 then [r.sockfd] else [] }
}
