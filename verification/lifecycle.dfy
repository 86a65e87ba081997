/** The application's main thread and the two signals it waits for: bring
    the network up, wait for an address, initialise the client and register
    the add-ons, activate the client, wait for a restart request, then tear
    the client down and reboot. The blocking waits become stages that make
    no progress until their event bit is set. */
module Lifecycle {
  import opened MenderTypes

  /** The two bits of the mender_client_events kernel event object. */
  datatype Event = NetworkUp | RestartRequested

  /** k_event_post(): sets one bit. The waits are called with reset false,
      so nothing ever clears a bit. */
  function Post(events: set<Event>, e: Event): (r: set<Event>)
    ensures e in r
    ensures forall x :: x in r <==> x in events || x == e
  {
    events + {e}
  }

  /** Posting a bit that is already set changes nothing. */
  lemma PostIsIdempotent(events: set<Event>, e: Event)
    ensures Post(Post(events, e), e) == Post(events, e)
    ensures e in events ==> Post(events, e) == events
  {
  }

  /** A network-management event number: NET_EVENT_IPV4_ADDR_ADD or any other. */
  datatype NetMgmtEvent = Ipv4AddrAdd | OtherNetEvent(code: nat)

  /** net_event_handler: only an IPv4 address being added announces the network. */
  function OnNetEvent(events: set<Event>, ev: NetMgmtEvent): (r: set<Event>)
    ensures NetworkUp in r <==> NetworkUp in events || ev == Ipv4AddrAdd
    ensures RestartRequested in r <==> RestartRequested in events
  {
    if ev == Ipv4AddrAdd then Post(events, NetworkUp) else events
  }

  /** restart_cb: asks the main thread to shut down and reboot; always succeeds. */
  function OnRestart(events: set<Event>): (r: (set<Event>, MenderErr))
    ensures RestartRequested in r.0 && r.1 == MenderOk
    ensures NetworkUp in r.0 <==> NetworkUp in events
  {
    (Post(events, RestartRequested), MenderOk)
  }

  /** Which optional parts are compiled in: TLS credentials, LLEXT module
      support, the configure, inventory and troubleshoot add-ons, and
      whether assert() evaluates its argument at all. */
  datatype Build = Build(tls: bool, llext: bool, configure: bool, inventory: bool,
                         troubleshoot: bool, assertions: bool)

  datatype Addon = ConfigureAddon | InventoryAddon | TroubleshootAddon

  /** A call main makes into the network stack, the client library or the kernel. */
  datatype Call =
    | DhcpStart
    | TlsCredentialAdd
    | ClientInit
    | RegisterArtifactType
    | RegisterAddon(addon: Addon)
    | ConfigureGet
    | InventorySet
    | ClientActivate
    | ClientDeactivate
    | ClientExit
    | Reboot

  /** What main's checked calls into the client library return. */
  datatype Outcomes = Outcomes(initOk: bool, artifactTypeOk: bool, configureOk: bool,
                               inventoryOk: bool, troubleshootOk: bool, activateOk: bool)

  /** One set-up call: whether it succeeds, and whether the source writes it
      inside assert(). */
  datatype SetupCall = SetupCall(call: Call, ok: bool, asserted: bool)

  /** The calls main makes during set-up, as opposed to the calls that
      activate or tear down the client. */
  predicate IsSetupCall(c: Call)
  {
    c.ClientInit? || c.RegisterArtifactType? || c.RegisterAddon? || c.ConfigureGet? || c.InventorySet?
  }

  /** Whether a build compiles in a set-up call: initialisation always,
      the artifact type with LLEXT support, each add-on registration with
      its add-on, the configuration read with the configure add-on and the
      inventory write with the inventory add-on. */
  predicate CompiledIn(b: Build, c: Call)
  {
    match c
    case ClientInit => true
    case RegisterArtifactType => b.llext
    case RegisterAddon(ConfigureAddon) => b.configure
    case RegisterAddon(InventoryAddon) => b.inventory
    case RegisterAddon(TroubleshootAddon) => b.troubleshoot
    case ConfigureGet => b.configure
    case InventorySet => b.inventory
    case _ => false
  }

  /** Where a set-up call stands in main's source text, counting from 0. */
  function Rank(c: Call): nat
  {
    match c
    case ClientInit => 0
    case RegisterArtifactType => 1
    case RegisterAddon(ConfigureAddon) => 2
    case RegisterAddon(InventoryAddon) => 3
    case RegisterAddon(TroubleshootAddon) => 4
    case ConfigureGet => 5
    case InventorySet => 6
    case _ => 7
  }

  /** Whether the source writes a set-up call inside assert(): all of them
      except the configuration read and the inventory write. */
  predicate WrittenInAssert(c: Call)
  {
    c != ConfigureGet && c != InventorySet
  }

  /** The set-up call at position `k` of main's source text. */
  function CallAt(k: nat): (c: Call)
    requires k < 7
    ensures Rank(c) == k && IsSetupCall(c)
  {
    if k == 0 then ClientInit
    else if k == 1 then RegisterArtifactType
    else if k == 2 then RegisterAddon(ConfigureAddon)
    else if k == 3 then RegisterAddon(InventoryAddon)
    else if k == 4 then RegisterAddon(TroubleshootAddon)
    else if k == 5 then ConfigureGet
    else InventorySet
  }

  /** Whether a set-up call succeeds. The configuration read and the
      inventory write only log their failures, so they count as succeeding. */
  function Succeeds(o: Outcomes, c: Call): bool
  {
    match c
    case ClientInit => o.initOk
    case RegisterArtifactType => o.artifactTypeOk
    case RegisterAddon(ConfigureAddon) => o.configureOk
    case RegisterAddon(InventoryAddon) => o.inventoryOk
    case RegisterAddon(TroubleshootAddon) => o.troubleshootOk
    case _ => true
  }

  /** The set-up call `c` as main makes it under outcomes `o`. */
  function Made(o: Outcomes, c: Call): SetupCall
  {
    SetupCall(c, Succeeds(o, c), WrittenInAssert(c))
  }

  /** The compiled-in set-up calls from source position `k` on. */
  function SetupFrom(b: Build, o: Outcomes, k: nat): (r: seq<SetupCall>)
    requires k <= 7
    ensures forall sc :: sc in r ==>
              && k <= Rank(sc.call) && IsSetupCall(sc.call) && CompiledIn(b, sc.call)
              && sc.asserted == WrittenInAssert(sc.call) && sc.ok == Succeeds(o, sc.call)
    ensures forall j :: k <= j < 7 && CompiledIn(b, CallAt(j)) ==> Made(o, CallAt(j)) in r
    ensures forall i :: 0 < i < |r| ==> Rank(r[i - 1].call) < Rank(r[i].call)
    decreases 7 - k
  {
    if k == 7 then []
    else
      (if CompiledIn(b, CallAt(k)) then [Made(o, CallAt(k))] else []) + SetupFrom(b, o, k + 1)
  }

  /** The set-up calls a build makes. */
  function SetupCalls(b: Build, o: Outcomes): (r: seq<SetupCall>)
    // exactly the calls the build compiles in, each once and in source order;
    // initialisation and the registrations are the calls written inside
    // assert(), and a call fails only when the client call it stands for fails
    ensures forall sc :: sc in r ==>
              && IsSetupCall(sc.call) && CompiledIn(b, sc.call)
              && sc.asserted == WrittenInAssert(sc.call) && sc.ok == Succeeds(o, sc.call)
    ensures forall k :: 0 <= k < 7 && CompiledIn(b, CallAt(k)) ==> Made(o, CallAt(k)) in r
    ensures forall i :: 0 < i < |r| ==> Rank(r[i - 1].call) < Rank(r[i].call)
  {
    SetupFrom(b, o, 0)
  }

  /** Every build initialises the client before any other set-up call. */
  lemma InitComesFirst(b: Build, o: Outcomes)
    ensures var r := SetupCalls(b, o);
            0 < |r| && r[0] == SetupCall(ClientInit, o.initOk, true)
  {
    assert CallAt(0) == ClientInit;
    assert SetupCalls(b, o) == SetupFrom(b, o, 0);
  }

  function CallsOf(cs: seq<SetupCall>): (r: seq<Call>)
    ensures |r| == |cs|
    ensures forall i :: 0 <= i < |cs| ==> r[i] == cs[i].call
    decreases |cs|
  {
    if cs == [] then [] else [cs[0].call] + CallsOf(cs[1..])
  }

  /** The calls a set-up sequence made, and whether a failed assertion
      stopped the program (a fatal error: no teardown and no reboot follow). */
  datatype SetupRun = SetupRun(made: seq<Call>, halted: bool)

  /** Whether some call in `cs` is checked by an assertion and fails. */
  predicate SomeAssertionFails(cs: seq<SetupCall>)
  {
    exists i :: 0 <= i < |cs| && cs[i].asserted && !cs[i].ok
  }

  lemma SomeAssertionFailsUnfold(cs: seq<SetupCall>)
    requires cs != []
    ensures SomeAssertionFails(cs) <==> (cs[0].asserted && !cs[0].ok) || SomeAssertionFails(cs[1..])
  {
    if SomeAssertionFails(cs[1..]) {
      var i :| 0 <= i < |cs[1..]| && cs[1..][i].asserted && !cs[1..][i].ok;
      assert cs[i + 1] == cs[1..][i];
    }
    if SomeAssertionFails(cs) && !(cs[0].asserted && !cs[0].ok) {
      var i :| 0 <= i < |cs| && cs[i].asserted && !cs[i].ok;
      assert cs[1..][i - 1] == cs[i];
    }
  }

  /** The calls of `cs` that are not written inside assert(), in order. */
  function Unchecked(cs: seq<SetupCall>): (r: seq<SetupCall>)
    ensures forall i :: 0 <= i < |r| ==> !r[i].asserted && r[i] in cs
    ensures forall sc :: sc in cs && !sc.asserted ==> sc in r
    decreases |cs|
  {
    if cs == [] then []
    else (if cs[0].asserted then [] else [cs[0]]) + Unchecked(cs[1..])
  }

  /** Set-up with each checked call made first and its result asserted
      afterwards, so that the call happens in every build. */
  function Perform(cs: seq<SetupCall>, assertions: bool): (r: SetupRun)
    ensures r.halted <==> assertions && SomeAssertionFails(cs)
    // the calls are made in order, and all of them unless an assertion stops the program
    ensures |r.made| <= |cs|
    ensures forall i :: 0 <= i < |r.made| ==> r.made[i] == cs[i].call
    ensures !r.halted ==> |r.made| == |cs|
    // a halt happens right at the first failing call
    ensures r.halted ==> 0 < |r.made| && cs[|r.made| - 1].asserted && !cs[|r.made| - 1].ok
    ensures r.halted ==> forall i :: 0 <= i < |r.made| - 1 ==> !(cs[i].asserted && !cs[i].ok)
    decreases |cs|
  {
    if cs == [] then SetupRun([], false)
    else
      SomeAssertionFailsUnfold(cs);
      var c := cs[0];
      if assertions && c.asserted && !c.ok then
        SetupRun([c.call], true)
      else
        var rest := Perform(cs[1..], assertions);
        assert forall i :: 0 < i < |cs| ==> cs[i] == cs[1..][i - 1];
        SetupRun([c.call] + rest.made, rest.halted)
  }

  /** Set-up as main's source text behaves: a call written inside assert()
      disappears together with the assertion when assertions are compiled
      out. */
  function PerformAsWritten(cs: seq<SetupCall>, assertions: bool): (r: SetupRun)
    // with assertions enabled the text as written behaves like the corrected one
    ensures assertions ==> r == Perform(cs, true)
    ensures assertions ==> (r.halted <==> SomeAssertionFails(cs))
    // with assertions compiled out only the unchecked calls are made
    ensures !assertions ==> !r.halted && r.made == CallsOf(Unchecked(cs))
    decreases |cs|
  {
    if cs == [] then SetupRun([], false)
    else
      SomeAssertionFailsUnfold(cs);
      var c := cs[0];
      if c.asserted && !assertions then
        PerformAsWritten(cs[1..], assertions)
      else if c.asserted && !c.ok then
        SetupRun([c.call], true)
      else
        var rest := PerformAsWritten(cs[1..], assertions);
        assert !c.asserted ==> ([c] + Unchecked(cs[1..]))[1..] == Unchecked(cs[1..]);
        SetupRun([c.call] + rest.made, rest.halted)
  }

  /** Where main stands. The two waits are the stages AwaitingNetwork and
      AwaitingRestart; Halted is a failed assertion's fatal error. */
  datatype Stage = Booting | AwaitingNetwork | Configuring | AwaitingRestart | Releasing | Rebooted | Halted

  /** main's progress: its stage, every call it has made so far, and
      whether mender_client_activate() succeeded (meaningful once made). */
  datatype Main = Main(stage: Stage, trace: seq<Call>, activated: bool)

  const Start: Main := Main(Booting, [], false)

  /** The configuring stage in one go: the set-up calls `cs`, then
      activation, whose outcome is `activateOk`. Activation failure jumps
      straight to the release. */
  function Configure(cs: seq<SetupCall>, assertions: bool, activateOk: bool): (r: Main)
    requires forall sc :: sc in cs ==> IsSetupCall(sc.call)
    ensures r.stage == Halted <==> assertions && SomeAssertionFails(cs)
    ensures r.stage in {Halted, AwaitingRestart, Releasing}
    ensures r.stage != Halted ==> (r.stage == AwaitingRestart <==> activateOk)
    ensures r.activated <==> r.stage == AwaitingRestart
    ensures forall i :: 0 <= i < |r.trace| ==> IsSetupCall(r.trace[i]) || r.trace[i] == ClientActivate
    // every set-up call is made, in order, and activation follows them once
    ensures r.stage != Halted ==> r.trace == CallsOf(cs) + [ClientActivate]
  {
    var run := Perform(cs, assertions);
    SetupCallsMadeAreSetup(cs, run.made);
    if run.halted then Main(Halted, run.made, false)
    else
      assert run.made == CallsOf(cs);
      var trace := run.made + [ClientActivate];
      assert forall i :: 0 <= i < |run.made| ==> trace[i] == run.made[i];
      Main(if activateOk then AwaitingRestart else Releasing, trace, activateOk)
  }

  lemma SetupCallsMadeAreSetup(cs: seq<SetupCall>, made: seq<Call>)
    requires forall sc :: sc in cs ==> IsSetupCall(sc.call)
    requires |made| <= |cs| && forall i :: 0 <= i < |made| ==> made[i] == cs[i].call
    ensures forall i :: 0 <= i < |made| ==> IsSetupCall(made[i])
  {
    forall i | 0 <= i < |made|
      ensures IsSetupCall(made[i])
    {
      assert cs[i] in cs;
    }
  }

  /** The same stage as the source text behaves: in a build without
      assertions, initialisation and registrations are gone. */
  function ConfigureAsWritten(cs: seq<SetupCall>, assertions: bool, activateOk: bool): (r: Main)
    requires forall sc :: sc in cs ==> IsSetupCall(sc.call)
    ensures r.stage == Halted <==> assertions && SomeAssertionFails(cs)
    ensures r.stage in {Halted, AwaitingRestart, Releasing}
    ensures r.stage != Halted ==> (r.stage == AwaitingRestart <==> activateOk)
    ensures r.activated <==> r.stage == AwaitingRestart
    ensures forall i :: 0 <= i < |r.trace| ==> IsSetupCall(r.trace[i]) || r.trace[i] == ClientActivate
    // without them only the unchecked calls are made before activation
    ensures !assertions ==> r.trace == CallsOf(Unchecked(cs)) + [ClientActivate]
  {
    var run := PerformAsWritten(cs, assertions);
    AsWrittenCallsAreSetup(cs, assertions);
    if run.halted then Main(Halted, run.made, false)
    else
      var trace := run.made + [ClientActivate];
      assert forall i :: 0 <= i < |run.made| ==> trace[i] == run.made[i];
      Main(if activateOk then AwaitingRestart else Releasing, trace, activateOk)
  }

  lemma AsWrittenCallsAreSetup(cs: seq<SetupCall>, assertions: bool)
    requires forall sc :: sc in cs ==> IsSetupCall(sc.call)
    ensures var made := PerformAsWritten(cs, assertions).made;
            forall i :: 0 <= i < |made| ==> IsSetupCall(made[i])
  {
    var made := PerformAsWritten(cs, assertions).made;
    if assertions {
      SetupCallsMadeAreSetup(cs, made);
    } else {
      forall i | 0 <= i < |made|
        ensures IsSetupCall(made[i])
      {
        assert Unchecked(cs)[i] in cs;
      }
    }
  }

  /** With assertions enabled, the text as written and the corrected text
      make the same calls and end in the same stage. */
  lemma AsWrittenWithAssertions(cs: seq<SetupCall>, activateOk: bool)
    requires forall sc :: sc in cs ==> IsSetupCall(sc.call)
    ensures ConfigureAsWritten(cs, true, activateOk) == Configure(cs, true, activateOk)
  {
  }

  /** With assertions compiled out, the source text activates a client it
      never initialised: in every such build the only calls made before
      activation are the configuration read and the inventory write, so
      neither mender_client_init nor any registration happens. */
  lemma UninitialisedActivation(b: Build, o: Outcomes)
    requires !b.assertions
    ensures var t := ConfigureAsWritten(SetupCalls(b, o), b.assertions, o.activateOk).trace;
            && 0 < |t| && t[|t| - 1] == ClientActivate
            && (forall i :: 0 <= i < |t| - 1 ==> t[i] == ConfigureGet || t[i] == InventorySet)
            && ClientInit !in t && RegisterArtifactType !in t
            && (forall i :: 0 <= i < |t| ==> !t[i].RegisterAddon?)
            && (b.configure ==> ConfigureGet in t)
            && (b.inventory ==> InventorySet in t)
  {
    var cs := SetupCalls(b, o);
    var u := Unchecked(cs);
    var t := ConfigureAsWritten(cs, b.assertions, o.activateOk).trace;
    UncheckedSetupCalls(b, o);
    ThenActivate(CallsOf(u), b.configure, b.inventory);
  }

  /** Activation after nothing but configuration reads and inventory writes. */
  lemma ThenActivate(u: seq<Call>, hasGet: bool, hasSet: bool)
    requires forall i :: 0 <= i < |u| ==> u[i] == ConfigureGet || u[i] == InventorySet
    requires hasGet ==> ConfigureGet in u
    requires hasSet ==> InventorySet in u
    ensures var t := u + [ClientActivate];
            && t[|t| - 1] == ClientActivate
            && (forall i :: 0 <= i < |t| - 1 ==> t[i] == ConfigureGet || t[i] == InventorySet)
            && ClientInit !in t && RegisterArtifactType !in t
            && (forall i :: 0 <= i < |t| ==> !t[i].RegisterAddon?)
            && (hasGet ==> ConfigureGet in t)
            && (hasSet ==> InventorySet in t)
  {
    var t := u + [ClientActivate];
    assert forall i :: 0 <= i < |t| - 1 ==> t[i] == u[i];
  }

  /** Without assertions, the only set-up calls main still makes are the two
      written outside them, and it makes each one its build compiles in. */
  lemma UncheckedSetupCalls(b: Build, o: Outcomes)
    ensures var u := CallsOf(Unchecked(SetupCalls(b, o)));
            && (forall i :: 0 <= i < |u| ==> u[i] == ConfigureGet || u[i] == InventorySet)
            && (b.configure ==> ConfigureGet in u)
            && (b.inventory ==> InventorySet in u)
  {
    var cs := SetupCalls(b, o);
    var u := Unchecked(cs);
    forall i | 0 <= i < |u|
      ensures CallsOf(u)[i] == ConfigureGet || CallsOf(u)[i] == InventorySet
    {
      assert CallsOf(u)[i] == u[i].call && u[i] in cs;
    }
    assert CallAt(5) == ConfigureGet && CallAt(6) == InventorySet;
    if b.configure {
      assert Made(o, CallAt(5)) in cs;
      CallsOfHas(u, Made(o, CallAt(5)));
    }
    if b.inventory {
      assert Made(o, CallAt(6)) in cs;
      CallsOfHas(u, Made(o, CallAt(6)));
    }
  }

  lemma CallsOfHas(cs: seq<SetupCall>, sc: SetupCall)
    requires sc in cs
    ensures sc.call in CallsOf(cs)
  {
    var i :| 0 <= i < |cs| && cs[i] == sc;
    assert CallsOf(cs)[i] == sc.call;
  }

  /** A call a build compiles in is among the set-up calls it makes. */
  lemma CompiledCallIsMade(b: Build, o: Outcomes, k: nat)
    requires k < 7 && CompiledIn(b, CallAt(k))
    ensures CallAt(k) in CallsOf(SetupCalls(b, o))
  {
    CallsOfHas(SetupCalls(b, o), Made(o, CallAt(k)));
  }

  /** With the checked calls hoisted out of the assertions, every build that
      gets as far as activation has initialised the client first and made
      every registration it compiles in before activating. */
  lemma InitAndRegisterBeforeActivate(b: Build, o: Outcomes)
    requires !(b.assertions && SomeAssertionFails(SetupCalls(b, o)))
    ensures var t := Configure(SetupCalls(b, o), b.assertions, o.activateOk).trace;
            && t[0] == ClientInit
            && (b.llext ==> RegisterArtifactType in t[..|t| - 1])
            && (b.configure ==> RegisterAddon(ConfigureAddon) in t[..|t| - 1])
            && (b.inventory ==> RegisterAddon(InventoryAddon) in t[..|t| - 1])
            && (b.troubleshoot ==> RegisterAddon(TroubleshootAddon) in t[..|t| - 1])
            && t[|t| - 1] == ClientActivate
  {
    var cs := SetupCalls(b, o);
    var t := Configure(cs, b.assertions, o.activateOk).trace;
    InitComesFirst(b, o);
    assert t[..|t| - 1] == CallsOf(cs);
    if b.llext {
      assert CallAt(1) == RegisterArtifactType;
      CompiledCallIsMade(b, o, 1);
    }
    if b.configure {
      assert CallAt(2) == RegisterAddon(ConfigureAddon);
      CompiledCallIsMade(b, o, 2);
    }
    if b.inventory {
      assert CallAt(3) == RegisterAddon(InventoryAddon);
      CompiledCallIsMade(b, o, 3);
    }
    if b.troubleshoot {
      assert CallAt(4) == RegisterAddon(TroubleshootAddon);
      CompiledCallIsMade(b, o, 4);
    }
  }

  /** The teardown the release label performs, in order. */
  const Teardown: seq<Call> := [ClientDeactivate, ClientExit, Reboot]

  predicate IsTeardownCall(c: Call)
  {
    c == ClientDeactivate || c == ClientExit || c == Reboot
  }

  /** Which text of main's set-up runs: the source as written, with the
      checked calls inside assert(), or the corrected text that makes each
      call first and asserts its result afterwards. */
  datatype SetupText = CallsInsideAssert | CallsHoisted

  /** A history extended by more calls starts with the old history and
      then lists the new calls. */
  lemma Extend(h: seq<Call>, more: seq<Call>)
    ensures |h| <= |h + more| && (h + more)[..|h|] == h
    ensures forall k :: |h| <= k < |h + more| ==> (h + more)[k] == more[k - |h|]
  {
  }

  /** The configuring stage run by the given text of main. */
  function ConfigureText(cs: seq<SetupCall>, text: SetupText, assertions: bool, activateOk: bool): (r: Main)
    requires forall sc :: sc in cs ==> IsSetupCall(sc.call)
    ensures r.stage == Halted <==> assertions && SomeAssertionFails(cs)
    ensures r.stage in {Halted, AwaitingRestart, Releasing}
    ensures r.stage != Halted ==> (r.stage == AwaitingRestart <==> activateOk)
    ensures r.activated <==> r.stage == AwaitingRestart
    ensures forall i :: 0 <= i < |r.trace| ==> IsSetupCall(r.trace[i]) || r.trace[i] == ClientActivate
  {
    if text == CallsInsideAssert then ConfigureAsWritten(cs, assertions, activateOk)
    else Configure(cs, assertions, activateOk)
  }

  /** main's step through the configuring stage, after the calls it made before. */
  function ConfigureStep(m: Main, cs: seq<SetupCall>, text: SetupText, assertions: bool, activateOk: bool): (r: Main)
    requires forall sc :: sc in cs ==> IsSetupCall(sc.call)
    ensures |m.trace| <= |r.trace| && r.trace[..|m.trace|] == m.trace
    ensures forall k :: |m.trace| <= k < |r.trace| ==> !IsTeardownCall(r.trace[k])
    ensures r.stage == Halted <==> assertions && SomeAssertionFails(cs)
    ensures r.stage in {Halted, AwaitingRestart, Releasing}
    ensures r.stage != Halted ==> (r.stage == AwaitingRestart <==> activateOk)
    ensures r.activated <==> r.stage == AwaitingRestart
  {
    var c := ConfigureText(cs, text, assertions, activateOk);
    Extend(m.trace, c.trace);
    Main(c.stage, m.trace + c.trace, c.activated)
  }

  /** One step of main, given which set-up text runs and the event bits as they stand. */
  function MainStep(m: Main, b: Build, text: SetupText, events: set<Event>, o: Outcomes): (r: Main)
    // main only ever adds calls to its history
    ensures |m.trace| <= |r.trace| && r.trace[..|m.trace|] == m.trace
    // the waits hold until their bit is set
    ensures m.stage == AwaitingNetwork && NetworkUp !in events ==> r == m
    ensures m.stage == AwaitingRestart && RestartRequested !in events ==> r == m
    // configuring halts exactly on a failed enabled assertion, and otherwise
    // waits for the restart exactly when activation succeeded
    ensures m.stage == Configuring ==> (r.stage == Halted <==> b.assertions && SomeAssertionFails(SetupCalls(b, o)))
    ensures m.stage == Configuring && r.stage != Halted ==>
              (r.stage == AwaitingRestart <==> o.activateOk) && (r.stage == Releasing <==> !o.activateOk)
    // the release always reboots, with deactivate, exit, reboot as its calls
    ensures m.stage == Releasing ==> r == Main(Rebooted, m.trace + Teardown, m.activated)
    // the teardown calls are made together, once, on the way to the reboot
    ensures r.stage == Rebooted && m.stage != Rebooted ==>
              m.stage == Releasing && r.trace == m.trace + Teardown
    ensures m.stage != Releasing ==> forall k :: |m.trace| <= k < |r.trace| ==> !IsTeardownCall(r.trace[k])
    ensures m.stage == Rebooted || m.stage == Halted ==> r == m
  {
    match m.stage
    case Booting => Main(AwaitingNetwork, m.trace + [DhcpStart], m.activated)
    case AwaitingNetwork =>
      if NetworkUp in events then
        Main(Configuring, m.trace + (if b.tls then [TlsCredentialAdd] else []), m.activated)
      else m
    case Configuring =>
      ConfigureStep(m, SetupCalls(b, o), text, b.assertions, o.activateOk)
    case AwaitingRestart =>
      if RestartRequested in events then Main(Releasing, m.trace, m.activated) else m
    case Releasing => Main(Rebooted, m.trace + Teardown, m.activated)
    case Rebooted => m
    case Halted => m
  }

  /** What main's history says at each stage: the teardown calls appear
      only as the final three calls of a rebooted main, each exactly once
      and in the order deactivate, exit, reboot. A successful activation is
      remembered until the reboot. */
  ghost predicate Consistent(m: Main)
  {
    && (m.stage != Rebooted ==> forall k :: 0 <= k < |m.trace| ==> !IsTeardownCall(m.trace[k]))
    && (m.stage == Rebooted ==>
          && |m.trace| >= 3
          && m.trace[|m.trace| - 3..] == Teardown
          && forall k :: 0 <= k < |m.trace| - 3 ==> !IsTeardownCall(m.trace[k]))
    && (m.stage == AwaitingRestart ==> m.activated)
    && (m.stage in {Booting, AwaitingNetwork, Configuring} ==> !m.activated)
  }

  /** Every step of main keeps its history consistent. */
  lemma StepKeepsConsistent(m: Main, b: Build, text: SetupText, events: set<Event>, o: Outcomes)
    requires Consistent(m)
    ensures Consistent(MainStep(m, b, text, events, o))
  {
    var r := MainStep(m, b, text, events, o);
    if m.stage != Releasing && m.stage != Rebooted {
      forall k | 0 <= k < |r.trace|
        ensures !IsTeardownCall(r.trace[k])
      {
        if k < |m.trace| {
          assert r.trace[..|m.trace|][k] == m.trace[k];
        }
      }
    } else if m.stage == Releasing {
      forall k | 0 <= k < |r.trace| - 3
        ensures !IsTeardownCall(r.trace[k])
      {
        assert r.trace[k] == m.trace[k];
      }
    }
  }
}
