/** The websocket heartbeat: a ping every tick drops the sockets that were silent since the one before. */
module Heartbeat {

  datatype Event<S> = Connect(socket: S) | Pong(socket: S) | Close(socket: S) | Tick
  {
    ghost predicate About(s: S)
    {
      !Tick? && socket == s
    }
  }

  /** The connected sockets, each with its isAlive flag, after one event. */
  ghost function Step<S>(clients: map<S, bool>, event: Event<S>): map<S, bool> {
    match event
    case Connect(s) => clients[s := true]
    case Pong(s) => if s in clients then clients[s := true] else clients
    case Close(s) => clients - {s}
    case Tick => map s | s in clients && clients[s] :: false
  }

  /** The sockets a tick terminates. */
  ghost function Silent<S>(clients: map<S, bool>): set<S> {
    set s | s in clients && !clients[s]
  }

  class AliveSocket {
    var isAlive: bool
    var terminated: bool
    var pings: nat

    constructor ()
      ensures !isAlive && !terminated && pings == 0
    {
      isAlive, terminated, pings := false, false, 0;
    }

    /** `each`, a tick's visit to one client. */
    method Each() returns (dropped: bool)
      modifies this
      ensures dropped == !old(isAlive) && !isAlive
      ensures terminated == (old(terminated) || !old(isAlive))
      ensures pings == if old(isAlive) then old(pings) + 1 else old(pings)
    {
      if !isAlive {
        terminated := true;
        return true;
      }
      isAlive, pings := false, pings + 1;
      return false;
    }
  }

  class SocketServer {
    var clients: set<AliveSocket>

    constructor ()
      ensures clients == {}
    {
      clients := {};
    }

    ghost function View(): map<AliveSocket, bool>
      reads this, clients
    {
      map s | s in clients :: s.isAlive
    }

    /** The `connection` handler. */
    method OnConnection(socket: AliveSocket)
      modifies this, socket
      ensures View() == Step(old(View()), Connect(socket))
      ensures clients == old(clients) + {socket} && socket.isAlive
    {
      clients := clients + {socket};
      socket.isAlive := true;
    }

    /** `heartbeat`, the `pong` handler of a connected socket. */
    method OnPong(socket: AliveSocket)
      requires socket in clients
      modifies socket
      ensures View() == Step(old(View()), Pong(socket))
      ensures socket.isAlive
    {
      socket.isAlive := true;
    }

    method OnClose(socket: AliveSocket)
      modifies this
      ensures View() == Step(old(View()), Close(socket))
      ensures clients == old(clients) - {socket}
    {
      clients := clients - {socket};
    }

    /** The interval's `ping`; a terminated socket leaves the set of clients. */
    method Ping()
      modifies this, clients
      ensures View() == Step(old(View()), Tick)
      ensures clients == set s | s in old(clients) && old(s.isAlive)
      ensures forall s :: s in old(clients) ==>
                && s.isAlive == false
                && s.terminated == (old(s.terminated) || !old(s.isAlive))
                && s.pings == if old(s.isAlive) then old(s.pings) + 1 else old(s.pings)
    {
      ghost var all, view := clients, View();
      var left := clients;
      while left != {}
        invariant left <= all == view.Keys
        invariant forall s :: s in clients <==> s in left || (s in all && view[s])
        invariant forall s :: s in left ==> unchanged(s)
        invariant forall s :: s in all - left ==> Pinged(s, view[s])
        decreases |left|
      {
        var socket :| socket in left;
        assert unchanged(socket);
        left := left - {socket};
        var terminated := socket.Each();
        if terminated {
          clients := clients - {socket};
        }
      }
      PingedView(this, view);
    }
  }

  lemma {:induction false} PingedView(server: SocketServer, view: map<AliveSocket, bool>)
    requires forall s :: s in server.clients <==> s in view && view[s]
    requires forall s :: s in server.clients ==> !s.isAlive
    ensures server.View() == Step(view, Tick)
  {
  }

  /** One socket's visit: terminated if it was down, otherwise put down and pinged. */
  twostate predicate Pinged(s: AliveSocket, wasAlive: bool)
    reads s
  {
    && !s.isAlive
    && s.terminated == (!wasAlive || old(s.terminated))
    && s.pings == if wasAlive then old(s.pings) + 1 else old(s.pings)
  }

  // ---------------------------------------------------------------- traces

  /** The clients after a trace, starting with none. */
  ghost function After<S>(trace: seq<Event<S>>): map<S, bool> {
    if trace == [] then map[] else Step(After(trace[..|trace| - 1]), trace[|trace| - 1])
  }

  /** Tick k terminates s. */
  ghost predicate Terminates<S(!new)>(trace: seq<Event<S>>, k: nat, s: S)
    requires k < |trace|
  {
    trace[k].Tick? && s in Silent(After(trace[..k]))
  }

  /** Since tick p, which s survived, nothing was heard of s before k. */
  ghost predicate SilentSince<S(!new)>(trace: seq<Event<S>>, p: nat, k: nat, s: S)
    requires p < k <= |trace|
  {
    && trace[p].Tick?
    && s in After(trace[..p + 1])
    && forall i :: p < i < k ==> !trace[i].Tick? && !trace[i].About(s)
  }

  lemma {:induction false} AfterSnoc<S(!new)>(trace: seq<Event<S>>, k: nat)
    requires k < |trace|
    ensures After(trace[..k + 1]) == Step(After(trace[..k]), trace[k])
  {
    assert trace[..k + 1][..k] == trace[..k];
  }

  /** A flag is down exactly when its socket survived the last tick and was silent since. */
  lemma {:induction false} DownExactly<S(!new)>(trace: seq<Event<S>>, k: nat, s: S)
    requires k <= |trace|
    ensures s in Silent(After(trace[..k])) <==> exists p: nat :: p < k && SilentSince(trace, p, k, s)
    decreases k
  {
    if k > 0 {
      DownExactly(trace, k - 1, s);
      AfterSnoc(trace, k - 1);
      var before, now := s in Silent(After(trace[..k - 1])), s in Silent(After(trace[..k]));
      if trace[k - 1].Tick? {
        if now {
          assert SilentSince(trace, k - 1, k, s);
        }
        if p: nat :| p < k && SilentSince(trace, p, k, s) {
          assert p == k - 1;
        }
      } else if trace[k - 1].About(s) {
        assert !now;
        assert forall p: nat :: p < k && SilentSince(trace, p, k, s) ==> p == k - 1;
      } else {
        assert now <==> before;
        if before {
          var p: nat :| p < k - 1 && SilentSince(trace, p, k - 1, s);
          assert SilentSince(trace, p, k, s);
        }
        if p: nat :| p < k && SilentSince(trace, p, k, s) {
          assert p < k - 1;
          assert SilentSince(trace, p, k - 1, s);
        }
      }
    }
  }

  /** A tick terminates a socket exactly when it was already there at the previous tick and silent since. */
  lemma {:induction false} TerminatedExactly<S(!new)>(trace: seq<Event<S>>, k: nat, s: S)
    requires k < |trace| && trace[k].Tick?
    ensures Terminates(trace, k, s) <==> exists p: nat :: p < k && SilentSince(trace, p, k, s)
  {
    DownExactly(trace, k, s);
  }

  /** Between every two ticks from step a on, s pongs. */
  ghost predicate Answers<S(!new)>(trace: seq<Event<S>>, a: nat, s: S) {
    forall p: nat, k: nat :: p < k < |trace| && a <= k && trace[p].Tick? && trace[k].Tick? ==>
      exists i :: p < i < k && trace[i] == Pong(s)
  }

  /** A socket that answers every ping and does not close is never dropped. */
  lemma {:induction false} AnsweringIsNeverDropped<S(!new)>(trace: seq<Event<S>>, a: nat, n: nat, s: S)
    requires a <= n <= |trace| && s in After(trace[..a])
    requires Answers(trace, a, s) && forall i :: a <= i < |trace| ==> trace[i] != Close(s)
    ensures s in After(trace[..n])
    decreases n
  {
    if a < n {
      AnsweringIsNeverDropped(trace, a, n - 1, s);
      AfterSnoc(trace, n - 1);
      if trace[n - 1].Tick? {
        DownExactly(trace, n - 1, s);
        forall p: nat | p < n - 1 && trace[p].Tick?
          ensures !SilentSince(trace, p, n - 1, s)
        {
          var i :| p < i < n - 1 && trace[i] == Pong(s);
          assert trace[i].About(s);
        }
      }
    }
  }

  /** A socket not heard of after step c is gone once a second tick has passed, whether or not it was there. */
  lemma {:induction false} SilentIsDroppedBySecondTick<S(!new)>(trace: seq<Event<S>>, c: nat, p: nat, q: nat, n: nat,
          s: S)
    requires c <= p < q < n <= |trace| && trace[p].Tick? && trace[q].Tick?
    requires forall i :: c <= i < |trace| ==> !trace[i].About(s)
    ensures s !in After(trace[..n])
    decreases n
  {
    AfterSnoc(trace, n - 1);
    if q < n - 1 {
      SilentIsDroppedBySecondTick(trace, c, p, q, n - 1, s);
    } else if s in After(trace[..q]) {
      DownAfterTick(trace, c, p, q, s);
    }
  }

  lemma {:induction false} DownAfterTick<S(!new)>(trace: seq<Event<S>>, c: nat, p: nat, q: nat, s: S)
    requires c <= p < q <= |trace| && trace[p].Tick?
    requires forall i :: c <= i < |trace| ==> !trace[i].About(s)
    ensures var clients := After(trace[..q]); s in clients ==> !clients[s]
    decreases q
  {
    AfterSnoc(trace, q - 1);
    if p < q - 1 {
      DownAfterTick(trace, c, p, q - 1, s);
    }
  }

  /** A socket is a client exactly when it has connected, and since then has neither closed nor been dropped. */
  lemma {:induction false} ConnectedExactly<S(!new)>(trace: seq<Event<S>>, n: nat, s: S)
    requires n <= |trace|
    ensures s in After(trace[..n]) <==> exists c: nat :: c < n && ConnectedSince(trace, c, n, s)
    decreases n
  {
    if n > 0 {
      ConnectedExactly(trace, n - 1, s);
      AfterSnoc(trace, n - 1);
      hide After;
      if s in After(trace[..n]) {
        if trace[n - 1] == Connect(s) {
          assert ConnectedSince(trace, n - 1, n, s);
        } else {
          var c: nat :| c < n - 1 && ConnectedSince(trace, c, n - 1, s);
          assert ConnectedSince(trace, c, n, s);
        }
      }
      if c: nat :| c < n && ConnectedSince(trace, c, n, s) {
        if c < n - 1 { assert ConnectedSince(trace, c, n - 1, s); }
      }
    }
  }

  /** s connected at step c, and before step n it neither closed nor was terminated. */
  ghost predicate ConnectedSince<S(!new)>(trace: seq<Event<S>>, c: nat, n: nat, s: S)
    requires c < n <= |trace|
  {
    trace[c] == Connect(s) && forall k :: c < k < n ==> trace[k] != Close(s) && !Terminates(trace, k, s)
  }

  /** No socket is dropped at the first tick after it connected, even if it never answers. */
  lemma {:induction false} FirstTickSpares<S(!new)>(trace: seq<Event<S>>, c: nat, k: nat, s: S)
    requires c < k < |trace| && trace[c] == Connect(s) && trace[k].Tick?
    requires forall i :: c < i < k ==> !trace[i].Tick?
    ensures !Terminates(trace, k, s)
  {
    TerminatedExactly(trace, k, s);
    assert trace[c].About(s);
    assert forall p: nat :: p < k && SilentSince(trace, p, k, s) ==> c <= p;
  }
}
