/**
 * The device-pairing page. Four state cells (the chosen transport, "connecting",
 * "connected" and a progress percentage) are changed by a guarded click on one of
 * the two transport cards and by a repeating 200 ms interval that fills the
 * progress bar and then flips the page to connected. The interval is modelled as a
 * discrete tick and a flag saying whether it is still registered.
 */
module DeviceSetupPage {
  import opened Wrappers

  /** The transports a card offers, `"bluetooth" | "wifi"`. */
  datatype Transport = Bluetooth | Wifi

  /** The page's state cells, plus whether the progress interval is registered. */
  datatype Pairing = Pairing(
    connectionType: Option<Transport>,
    isConnecting: bool,
    isConnected: bool,
    connectionProgress: int,
    timerActive: bool)

  /** Progress added by one tick of the interval. */
  const Step: int := 10
  /** Progress at which the interval stops and the page is connected. */
  const Complete: int := 100

  /** The state on mount: no transport, neither flag, progress 0, no interval. */
  const Initial: Pairing := Pairing(None, false, false, 0, false)

  /** Neither connecting nor connected: the only state in which a card click acts. */
  predicate Idle(s: Pairing) {
    !s.isConnecting && !s.isConnected
  }

  /** What holds of every state the page can reach (see `ReachableIffInv`). */
  predicate Inv(s: Pairing) {
    && 0 <= s.connectionProgress <= Complete
    && s.connectionProgress % Step == 0
    && !(s.isConnecting && s.isConnected)
    && (s.timerActive <==> s.isConnecting)
    && (s.isConnecting ==> s.connectionType.Some?)
    && (s.isConnected ==> s.connectionType.Some? && s.connectionProgress == Complete)
    && (Idle(s) ==> s == Initial)
  }

  /** The connected state a pairing over `t` ends in. */
  function ConnectedOver(t: Transport): Pairing {
    Pairing(Some(t), false, true, Complete, false)
  }

  /**
   * `handleConnect(type)`: record the transport, set connecting, zero the progress
   * and register the interval. Both call sites guard it with "neither connecting
   * nor connected", which is its precondition here.
   */
  function AfterConnect(s: Pairing, t: Transport): (r: Pairing)
    requires Idle(s)
    ensures Idle(r) == false && r.connectionType == Some(t)
    ensures r.isConnected == s.isConnected
  {
    s.(connectionType := Some(t), isConnecting := true, connectionProgress := 0, timerActive := true)
  }

  /** A click on a transport card: `!isConnecting && !isConnected && handleConnect(t)`. */
  function AfterClick(s: Pairing, t: Transport): (r: Pairing)
    requires Inv(s)
    ensures Inv(r) && !Idle(r) && r.connectionType.Some?
  {
    if !s.isConnecting && !s.isConnected then AfterConnect(s, t) else s
  }

  /**
   * One firing of the interval. A cleared interval fires nothing. Otherwise the
   * progress updater adds a step while progress is below 100; the first firing that
   * sees 100 or more clears the interval, flips connecting to connected and
   * clamps the progress to 100.
   */
  function AfterTick(s: Pairing): (r: Pairing)
    requires Inv(s)
    ensures Inv(r)
    ensures s.connectionProgress <= r.connectionProgress
  {
    if !s.timerActive then s
    else if s.connectionProgress >= Complete then
      s.(timerActive := false, isConnecting := false, isConnected := true, connectionProgress := Complete)
    else
      s.(connectionProgress := s.connectionProgress + Step)
  }

  /** What can happen to the page: a click on a card, or a firing of the interval. */
  datatype Event = CardClick(transport: Transport) | IntervalFires

  function Apply(s: Pairing, e: Event): (r: Pairing)
    requires Inv(s)
    ensures Inv(r)
  {
    match e
    case CardClick(t) => AfterClick(s, t)
    case IntervalFires => AfterTick(s)
  }

  /** The state after the events `es`, in order. */
  function Run(s: Pairing, es: seq<Event>): (r: Pairing)
    requires Inv(s)
    ensures Inv(r)
    decreases |es|
  {
    if es == [] then s else Run(Apply(s, es[0]), es[1..])
  }

  /** `n` consecutive firings of the interval. */
  function Ticks(n: nat): (es: seq<Event>)
    ensures |es| == n && forall i | 0 <= i < n :: es[i] == IntervalFires
  {
    if n == 0 then [] else [IntervalFires] + Ticks(n - 1)
  }

  // ----- Single steps -----

  /** From the idle state a click records the transport, starts connecting at 0 %. */
  lemma ClickFromIdle(s: Pairing, t: Transport)
    requires Inv(s) && Idle(s)
    ensures AfterClick(s, t) == Pairing(Some(t), true, false, 0, true)
  {
  }

  /** While connecting or connected a click changes nothing, the transport included. */
  lemma ClickWhenBusy(s: Pairing, t: Transport)
    requires Inv(s) && !Idle(s)
    ensures AfterClick(s, t) == s
  {
  }

  /** A tick below 100 adds exactly one step and changes nothing else. */
  lemma TickBelowComplete(s: Pairing)
    requires Inv(s) && s.isConnecting && s.connectionProgress < Complete
    ensures AfterTick(s) == s.(connectionProgress := s.connectionProgress + Step)
  {
  }

  /** The tick that sees 100 connects, clamps to 100 and clears the interval. */
  lemma TickAtComplete(s: Pairing)
    requires Inv(s) && s.timerActive && s.connectionProgress >= Complete
    ensures AfterTick(s) == ConnectedOver(s.connectionType.value)
  {
  }

  // ----- Runs of events -----

  lemma {:induction false} RunAppend(s: Pairing, a: seq<Event>, b: seq<Event>)
    requires Inv(s)
    ensures Run(s, a + b) == Run(Run(s, a), b)
    decreases |a|
  {
    if a == [] {
      assert a + b == b;
    } else {
      assert (a + b)[0] == a[0];
      assert (a + b)[1..] == a[1..] + b;
      RunAppend(Apply(s, a[0]), a[1..], b);
    }
  }

  /** Connected is absorbing: once connected, no event changes anything. */
  lemma {:induction false} ConnectedIsFinal(s: Pairing, es: seq<Event>)
    requires Inv(s) && s.isConnected
    ensures Run(s, es) == s
    decreases |es|
  {
    if es != [] {
      ConnectedIsFinal(Apply(s, es[0]), es[1..]);
    }
  }

  /**
   * Once an attempt has started the page never becomes idle again and its
   * transport never changes.
   */
  lemma {:induction false} TransportFixedOnceStarted(s: Pairing, es: seq<Event>)
    requires Inv(s) && !Idle(s)
    ensures !Idle(Run(s, es)) && Run(s, es).connectionType == s.connectionType
    decreases |es|
  {
    if es != [] {
      TransportFixedOnceStarted(Apply(s, es[0]), es[1..]);
    }
  }

  /** Progress never decreases along any run. */
  lemma {:induction false} ProgressMonotone(s: Pairing, es: seq<Event>)
    requires Inv(s)
    ensures s.connectionProgress <= Run(s, es).connectionProgress
    decreases |es|
  {
    if es != [] {
      ProgressMonotone(Apply(s, es[0]), es[1..]);
    }
  }

  /** While room remains, `n` ticks add exactly `n` steps and stay connecting. */
  lemma {:induction false} TicksWhileConnecting(s: Pairing, n: nat)
    requires Inv(s) && s.isConnecting && s.connectionProgress + Step * n <= Complete
    ensures Run(s, Ticks(n)) == s.(connectionProgress := s.connectionProgress + Step * n)
    decreases n
  {
    if n > 0 {
      var next := AfterTick(s);
      assert next == s.(connectionProgress := s.connectionProgress + Step);
      assert Ticks(n)[0] == IntervalFires && Ticks(n)[1..] == Ticks(n - 1);
      TicksWhileConnecting(next, n - 1);
    }
  }

  /** After a fresh connect, progress is `10 * n` for each of the first ten ticks. */
  lemma ConnectingForTenTicks(t: Transport, n: nat)
    requires n <= 10
    ensures Run(AfterClick(Initial, t), Ticks(n)) == Pairing(Some(t), true, false, Step * n, true)
  {
    TicksWhileConnecting(AfterClick(Initial, t), n);
  }

  /** The eleventh tick after a fresh connect is the one that connects. */
  lemma ConnectedOnEleventhTick(t: Transport)
    ensures Run(AfterClick(Initial, t), Ticks(11)) == ConnectedOver(t)
  {
    var s := AfterClick(Initial, t);
    assert Ticks(11) == Ticks(10) + [IntervalFires];
    RunAppend(s, Ticks(10), [IntervalFires]);
    ConnectingForTenTicks(t, 10);
  }

  /**
   * Progress reads 100 for one tick before the page is connected, so "connected
   * if and only if progress is 100" does not hold of every reachable state.
   */
  lemma FullProgressBeforeConnected(t: Transport)
    ensures var s := Run(AfterClick(Initial, t), Ticks(10));
      s.connectionProgress == Complete && !s.isConnected && s.isConnecting
  {
    ConnectingForTenTicks(t, 10);
  }

  // ----- Reachability -----

  /** A run from mount that reaches `s`: one click, then a tick per step of progress, then the connecting tick. */
  function Script(s: Pairing): seq<Event>
    requires Inv(s)
  {
    if Idle(s) then []
    else
      var ticks := s.connectionProgress / Step + (if s.isConnected then 1 else 0);
      [CardClick(s.connectionType.value)] + Ticks(ticks)
  }

  /** Every state satisfying `Inv` is reached from mount by some run. */
  lemma InvIsReachable(s: Pairing)
    requires Inv(s)
    ensures Run(Initial, Script(s)) == s
  {
    if !Idle(s) {
      var t := s.connectionType.value;
      var n := s.connectionProgress / Step;
      var es := Script(s);
      assert es[0] == CardClick(t) && es[1..] == Ticks(n + (if s.isConnected then 1 else 0));
      assert Run(Initial, es) == Run(AfterClick(Initial, t), es[1..]);
      if s.isConnected {
        assert n == 10;
        ConnectedOnEleventhTick(t);
      } else {
        ConnectingForTenTicks(t, n);
      }
    }
  }

  /** `Inv` describes exactly the states reachable from mount. */
  lemma ReachableIffInv(s: Pairing)
    ensures Inv(s) <==> exists es: seq<Event> :: Run(Initial, es) == s
  {
    if Inv(s) {
      InvIsReachable(s);
    }
  }

  /**
   * The page component: four state cells and the registration of the progress
   * interval. `OnCardClick` is a card's click handler, `Tick` one firing of the
   * interval's callback.
   */
  class DeviceSetup {
    var connectionType: Option<Transport>
    var isConnecting: bool
    var isConnected: bool
    var connectionProgress: int
    var timerActive: bool

    function State(): Pairing
      reads this
    {
      Pairing(connectionType, isConnecting, isConnected, connectionProgress, timerActive)
    }

    ghost predicate Valid()
      reads this
    {
      Inv(State())
    }

    constructor ()
      ensures Valid() && State() == Initial
    {
      connectionType := None;
      isConnecting := false;
      isConnected := false;
      connectionProgress := 0;
      timerActive := false;
    }

    /** `handleConnect(t)`; its callers only call it while idle. */
    method HandleConnect(t: Transport)
      requires Valid() && !isConnecting && !isConnected
      modifies this
      ensures Valid() && State() == AfterConnect(old(State()), t)
      ensures connectionType == Some(t) && isConnecting && !isConnected
      ensures connectionProgress == 0 && timerActive
    {
      connectionType := Some(t);
      isConnecting := true;
      connectionProgress := 0;
      timerActive := true;
    }

    /** A card's click handler: connects over `t` only when idle. */
    method OnCardClick(t: Transport)
      requires Valid()
      modifies this
      ensures Valid() && State() == AfterClick(old(State()), t)
      ensures old(isConnecting || isConnected) ==> unchanged(this)
      ensures old(!isConnecting && !isConnected) ==>
        connectionType == Some(t) && isConnecting && !isConnected && connectionProgress == 0
    {
      if !isConnecting && !isConnected {
        HandleConnect(t);
      }
    }

    /** One firing of the progress interval's callback. */
    method Tick()
      requires Valid()
      modifies this
      ensures Valid() && State() == AfterTick(old(State()))
      ensures connectionType == old(connectionType)
      ensures old(connectionProgress) <= connectionProgress
      ensures old(isConnected) ==> unchanged(this)
      ensures old(isConnecting && connectionProgress < Complete) ==>
        connectionProgress == old(connectionProgress) + Step && isConnecting && timerActive
      ensures old(isConnecting && connectionProgress >= Complete) ==>
        connectionProgress == Complete && isConnected && !isConnecting && !timerActive
    {
      if timerActive {
        if connectionProgress >= Complete {
          timerActive := false;
          isConnecting := false;
          isConnected := true;
          connectionProgress := Complete;
        } else {
          connectionProgress := connectionProgress + Step;
        }
      }
    }
  }

  /** A session as the page runs it: one click and eleven firings end connected. */
  method PairingScenario(t: Transport)
  {
    var page := new DeviceSetup();
    page.OnCardClick(t);
    var i := 0;
    while i < 10
      invariant 0 <= i <= 10 && page.Valid()
      invariant page.State() == Pairing(Some(t), true, false, Step * i, true)
    {
      page.Tick();
      page.OnCardClick(if t == Bluetooth then Wifi else Bluetooth);
      i := i + 1;
    }
    assert page.connectionProgress == Complete && !page.isConnected;
    page.Tick();
    assert page.State() == ConnectedOver(t);
    page.Tick();
    page.OnCardClick(t);
    assert page.State() == ConnectedOver(t);
  }
}
