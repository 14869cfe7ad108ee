/** How often a call of the page goes out: over any life of a tab, whatever the replies are. */
module FetchRuns {
  import opened RtrRedis
  import opened WebClient
  import opened Collections

  datatype Life = Life(
    tab: Client,
    sent: map<nat, nat>,       // how often an apiFetch went out
    behind: map<nat, nat>,     // the refresh it was parked behind
    asked: set<nat>,           // every refresh request so far
    delivered: set<nat>)       // those that delivered a token pair to the tab

  datatype Step =
    | Open(i: nat)                                            // a new apiFetch goes out
    | Response(i: nat, unauthorized: bool, ok: bool, c: nat)
    | Refresh(c: nat)                                         // the refresh a page load starts
    | Answer(reply: Reply)                                    // the refresh in flight ends
    | SignIn(t: Token)
    | SignOut
    | Reload

  function Count(m: map<nat, nat>, i: nat): nat {
    if i in m then m[i] else 0
  }

  /** The call goes out on the way from one state to the next. */
  predicate GoesOut(before: Client, after: Client, i: nat) {
    i in after.fetches && after.fetches[i].Sent? && (i !in before.fetches || before.fetches[i] != after.fetches[i])
  }

  /** It is parked on that way. */
  predicate Parks(before: Client, after: Client, i: nat) {
    i in after.fetches && after.fetches[i].Parked? && (i !in before.fetches || !before.fetches[i].Parked?)
  }

  function Seen(l: Life, tab: Client): Life {
    l.(tab := tab,
       sent := map i | i in l.sent.Keys + tab.fetches.Keys :: Count(l.sent, i) + One(GoesOut(l.tab, tab, i)),
       behind := l.behind + (map i | i in tab.fetches && Parks(l.tab, tab, i) && tab.flight.InFlight? :: tab.flight.c),
       asked := if tab.flight.InFlight? then l.asked + {tab.flight.c} else l.asked)
  }

  function Apply(l: Life, e: Step): Life {
    match e
    case Open(i) => if i in l.sent then l else Seen(l, l.tab.(fetches := l.tab.fetches[i := Sent(false)]))
    case Response(i, unauthorized, ok, c) => if c in l.asked then l else Seen(l, Responded(l.tab, i, unauthorized, ok, c))
    case Refresh(c) => if c in l.asked then l else Seen(l, Refreshing(l.tab, c))
    case Answer(reply) =>
      if l.tab.flight.NoFlight? then l
      else
        Seen(l.(delivered := if reply.Tokens? then l.delivered + {l.tab.flight.c} else l.delivered), Replied(l.tab, reply))
    case SignIn(t) => Seen(l, Stored(l.tab, t))
    case SignOut => Seen(l, Cleared(l.tab))
    case Reload => Seen(l, Reloaded(l.tab))
  }

  function Exec(l: Life, es: seq<Step>): Life
    decreases es
  {
    if es == [] then l else Exec(Apply(l, es[0]), es[1..])
  }

  const NEW := Life(Client(NoToken, NoToken, NoFlight, map[]), map[], map[], {}, {})

  // ---- the invariant

  /** A call went out once, and once more exactly if the refresh it was parked behind delivered. */
  predicate OnceMore(l: Life, i: nat)
    requires i in l.sent
  {
    l.sent[i] == 1 + One(i in l.behind && l.behind[i] in l.delivered)
  }

  predicate FetchOk(l: Life, i: nat)
    requires i in l.tab.fetches
  {
    match l.tab.fetches[i]
    case Sent(retried) => if retried then i in l.behind && l.behind[i] in l.delivered else i !in l.behind
    case Parked => l.tab.flight.InFlight? && i in l.behind && l.behind[i] == l.tab.flight.c
    case Ended(_) => true
  }

  predicate BehindOk(l: Life, i: nat)
    requires i in l.behind
  {
    && i in l.sent && l.behind[i] in l.asked
    && (l.tab.flight.InFlight? && l.behind[i] == l.tab.flight.c ==> i in l.tab.fetches && l.tab.fetches[i].Parked?)
  }

  predicate Inv(l: Life) {
    && l.tab.fetches.Keys <= l.sent.Keys && l.delivered <= l.asked
    && (l.tab.flight.InFlight? ==> l.tab.flight.c in l.asked && l.tab.flight.c !in l.delivered)
    && (forall i :: i in l.sent ==> OnceMore(l, i))
    && (forall i :: i in l.tab.fetches ==> FetchOk(l, i))
    && (forall i :: i in l.behind ==> BehindOk(l, i))
  }

  lemma OpenKeeps(l: Life, i: nat)
    requires Inv(l) && i !in l.sent
    ensures Inv(Apply(l, Open(i)))
  {
    var l' := Apply(l, Open(i));
    forall k | k in l'.behind ensures BehindOk(l', k) {
      assert BehindOk(l, k);
    }
  }

  // A refresh may start, with a new request; apart from that the tab does not move.
  predicate FlightMoves(l: Life, tab: Client) {
    tab.flight == l.tab.flight || tab.flight.NoFlight?
    || (l.tab.flight.NoFlight? && tab.flight.InFlight? && tab.flight.c !in l.asked)
  }

  lemma NothingGoesOut(l: Life, tab: Client)
    requires Inv(l) && tab.fetches == l.tab.fetches
    ensures Seen(l, tab).sent == l.sent && Seen(l, tab).behind == l.behind
  {
  }

  // Nothing but the tokens and the flight moves.
  lemma StillKeeps(l: Life, tab: Client)
    requires Inv(l) && tab.fetches == l.tab.fetches && FlightMoves(l, tab) && (tab.flight.NoFlight? ==> l.tab.flight.NoFlight?)
    ensures Inv(Seen(l, tab))
  {
    var l' := Seen(l, tab);
    NothingGoesOut(l, tab);
    forall k | k in l'.tab.fetches ensures FetchOk(l', k) {
      assert FetchOk(l, k);
    }
    forall k | k in l'.behind ensures BehindOk(l', k) {
      assert BehindOk(l, k);
    }
    forall k | k in l'.sent ensures OnceMore(l', k) {
      assert OnceMore(l, k);
    }
  }

  // An apiFetch ends.
  lemma EndKeeps(l: Life, i: nat, ok: bool)
    requires Inv(l) && i in l.tab.fetches && l.tab.fetches[i].Sent?
    ensures Inv(Seen(l, l.tab.(fetches := l.tab.fetches[i := Ended(ok)])))
  {
    var l' := Seen(l, l.tab.(fetches := l.tab.fetches[i := Ended(ok)]));
    assert l'.sent == l.sent && l'.behind == l.behind;
    forall k | k in l'.tab.fetches ensures FetchOk(l', k) {
      assert FetchOk(l, k);
    }
    forall k | k in l'.behind ensures BehindOk(l', k) {
      assert BehindOk(l, k);
    }
    forall k | k in l'.sent ensures OnceMore(l', k) {
      assert OnceMore(l, k);
    }
  }

  // An apiFetch that went out once waits for a refresh.
  lemma ParkKeeps(l: Life, i: nat, tab: Client)
    requires Inv(l) && i in l.tab.fetches && l.tab.fetches[i] == Sent(false)
    requires tab.fetches == l.tab.fetches[i := Parked] && tab.flight.InFlight? && FlightMoves(l, tab)
    ensures Inv(Seen(l, tab))
  {
    var l' := Seen(l, tab);
    assert FetchOk(l, i) && OnceMore(l, i);
    assert l'.sent == l.sent && l'.behind == l.behind[i := tab.flight.c];
    forall k | k in l'.tab.fetches ensures FetchOk(l', k) {
      assert FetchOk(l, k);
    }
    forall k | k in l'.behind ensures BehindOk(l', k) {
      assert k != i ==> BehindOk(l, k);
    }
    forall k | k in l'.sent ensures OnceMore(l', k) {
      assert OnceMore(l, k);
    }
  }

  lemma ResponseKeeps(l: Life, i: nat, unauthorized: bool, ok: bool, c: nat)
    requires Inv(l) && c !in l.asked
    ensures Inv(Apply(l, Response(i, unauthorized, ok, c)))
  {
    var tab := Responded(l.tab, i, unauthorized, ok, c);
    if i !in l.tab.fetches || !l.tab.fetches[i].Sent? {
      StillKeeps(l, tab);
    } else if unauthorized && !l.tab.fetches[i].retried && l.tab.stored != NoToken {
      ParkKeeps(l, i, tab);
    } else {
      EndKeeps(l, i, ok && !unauthorized);
    }
  }

  lemma AnswerKeeps(l: Life, reply: Reply)
    requires Inv(l) && l.tab.flight.InFlight?
    ensures Inv(Apply(l, Answer(reply)))
  {
    var l' := Apply(l, Answer(reply));
    forall k | k in l'.tab.fetches ensures FetchOk(l', k) {
      assert FetchOk(l, k);
    }
    forall k | k in l'.sent ensures OnceMore(l', k) {
      assert OnceMore(l, k);
      assert k in l.behind ==> BehindOk(l, k);
      assert k in l.tab.fetches ==> FetchOk(l, k);
    }
  }

  lemma ReloadKeeps(l: Life)
    requires Inv(l)
    ensures Inv(Apply(l, Reload))
  {
    var l' := Apply(l, Reload);
    assert l'.sent == l.sent && l'.behind == l.behind;
    forall k | k in l'.behind ensures BehindOk(l', k) {
      assert BehindOk(l, k);
    }
    forall k | k in l'.sent ensures OnceMore(l', k) {
      assert OnceMore(l, k);
    }
  }

  lemma {:induction false} InvKept(l: Life, es: seq<Step>)
    requires Inv(l)
    ensures Inv(Exec(l, es))
    decreases es
  {
    if es != [] {
      match es[0] {
        case Open(i) => if i !in l.sent { OpenKeeps(l, i); }
        case Response(i, unauthorized, ok, c) => if c !in l.asked { ResponseKeeps(l, i, unauthorized, ok, c); }
        case Answer(reply) => if l.tab.flight.InFlight? { AnswerKeeps(l, reply); }
        case Refresh(c) => if c !in l.asked { StillKeeps(l, Refreshing(l.tab, c)); }
        case SignIn(t) => StillKeeps(l, Stored(l.tab, t));
        case SignOut => StillKeeps(l, Cleared(l.tab));
        case Reload => ReloadKeeps(l);
      }
      InvKept(Apply(l, es[0]), es[1..]);
    }
  }

  /** In every life of a tab an apiFetch goes out once or twice: twice if and only if the refresh it was
      parked behind delivered a token pair. */
  lemma SentAtMostTwice(es: seq<Step>, i: nat)
    requires i in Exec(NEW, es).sent
    ensures var l := Exec(NEW, es);
            1 <= l.sent[i] <= 2 && (l.sent[i] == 2 <==> i in l.behind && l.behind[i] in l.delivered)
  {
    InvKept(NEW, es);
  }
}
