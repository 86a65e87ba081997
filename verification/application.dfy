/** The whole application as one process: main's progress, the event bits,
    the authentication retry counter, whether the running image is
    confirmed, and the hello-world module buffer,
    changed by main's own steps and by callbacks arriving from the network
    stack and the client library in any order. */
module Application {
  import opened MenderTypes
  import Authentication
  import HelloWorldModule
  import Lifecycle

  /** Build-time choices: the compiled-in parts, which text of main's
      set-up runs, and CONFIG_EXAMPLE_AUTHENTICATION_FAILS_MAX_TRIES. */
  datatype Config = Config(build: Lifecycle.Build, text: Lifecycle.SetupText, maxTries: int)

  /** Everything the application keeps between calls, together with the
      confirmation state of the running image that the flash layer keeps:
      `imageConfirmed` is what mender_flash_is_image_confirmed() answers. */
  datatype App = App(main: Lifecycle.Main, events: set<Lifecycle.Event>,
                     policy: Authentication.Policy, imageConfirmed: bool,
                     helloWorld: HelloWorldModule.Buffer)

  /** The state at power-on: main not started, no event bits, no failed
      authentications counted, no module buffer. `confirmed` says whether
      the image booted is already confirmed or is a new one still pending. */
  function Boot(confirmed: bool): App
  {
    App(Lifecycle.Start, {}, Authentication.Initial, confirmed, HelloWorldModule.Released)
  }

  /** Something that happens to the application: one step of main (with
      the outcomes of the client calls that step makes), or one callback
      with the outcomes of the external calls it makes. */
  datatype Input =
    | MainRuns(outcomes: Lifecycle.Outcomes)
    | NetEvent(event: Lifecycle.NetMgmtEvent)
    | RestartCallback
    | AuthSuccess(activateRet: MenderErr, confirmRet: MenderErr)
    | AuthFailure
    | ModuleChunk(data: Option<seq<byte>>, reallocOk: bool)
    | DeploymentStatus(status: HelloWorldModule.DeploymentStatus, loadOk: bool)

  /** The application's state after one input. */
  function Step(c: Config, a: App, i: Input): (r: App)
    // the retry counter never goes down; only a failed authentication moves it
    ensures a.policy.tries <= r.policy.tries
    ensures !i.AuthFailure? ==> r.policy == a.policy
    // a failure of a confirmed image leaves the counter alone, one of a pending image spends a try
    ensures i.AuthFailure? && a.imageConfirmed ==> r.policy == a.policy
    ensures i.AuthFailure? && !a.imageConfirmed ==> r.policy.tries == a.policy.tries + 1
    // only a success confirms the image: exactly when the troubleshoot add-on
    // is absent or activated, and the confirmation succeeds; nothing unconfirms it
    ensures i.AuthSuccess? ==>
              (r.imageConfirmed <==>
                 a.imageConfirmed || ((!c.build.troubleshoot || i.activateRet == MenderOk) && i.confirmRet == MenderOk))
    ensures !i.AuthSuccess? ==> r.imageConfirmed == a.imageConfirmed
    // event bits are never cleared
    ensures a.events <= r.events
    // main's history only grows, and only main's own steps extend it
    ensures |a.main.trace| <= |r.main.trace| && r.main.trace[..|a.main.trace|] == a.main.trace
    ensures !i.MainRuns? ==> r.main == a.main
    // only the module callbacks touch the module buffer
    ensures !(i.ModuleChunk? || i.DeploymentStatus?) ==> r.helloWorld == a.helloWorld
  {
    match i
    case MainRuns(o) => a.(main := Lifecycle.MainStep(a.main, c.build, c.text, a.events, o))
    case NetEvent(e) => a.(events := Lifecycle.OnNetEvent(a.events, e))
    case RestartCallback => a.(events := Lifecycle.OnRestart(a.events).0)
    case AuthSuccess(activateRet, confirmRet) =>
      // the image becomes confirmed when the callback confirms it successfully
      var reply := Authentication.OnSuccess(c.build.troubleshoot, activateRet, confirmRet);
      a.(imageConfirmed := a.imageConfirmed || (Authentication.ConfirmImage in reply.calls && confirmRet == MenderOk))
    case AuthFailure =>
      a.(policy := Authentication.OnFailure(a.policy, a.imageConfirmed, c.maxTries).policy)
    case ModuleChunk(data, ok) =>
      a.(helloWorld := HelloWorldModule.OnChunk(a.helloWorld, data, ok).buffer)
    case DeploymentStatus(status, ok) =>
      a.(helloWorld := HelloWorldModule.OnDeploymentStatus(c.build.llext, a.helloWorld, status, ok).buffer)
  }

  /** The application's state after a sequence of inputs. */
  function Run(c: Config, a: App, inputs: seq<Input>): App
    decreases |inputs|
  {
    if inputs == [] then a else Run(c, Step(c, a, inputs[0]), inputs[1..])
  }

  /** What holds of the application at every point of every run: main's
      history is consistent with its stage, main has passed the network
      wait only once the network was announced, and a main whose client
      activation succeeded releases it only once a restart was requested. */
  ghost predicate Invariant(a: App)
  {
    && Lifecycle.Consistent(a.main)
    && (a.main.stage !in {Lifecycle.Booting, Lifecycle.AwaitingNetwork} ==> Lifecycle.NetworkUp in a.events)
    && (a.main.stage in {Lifecycle.Releasing, Lifecycle.Rebooted} && a.main.activated ==>
          Lifecycle.RestartRequested in a.events)
  }

  lemma BootSatisfiesInvariant(confirmed: bool)
    ensures Invariant(Boot(confirmed))
  {
  }

  lemma StepKeepsInvariant(c: Config, a: App, i: Input)
    requires Invariant(a)
    ensures Invariant(Step(c, a, i))
  {
    if i.MainRuns? {
      Lifecycle.StepKeepsConsistent(a.main, c.build, c.text, a.events, i.outcomes);
    }
  }

  /** The invariant survives every interleaving of main's steps and callbacks. */
  lemma {:induction false} RunKeepsInvariant(c: Config, a: App, inputs: seq<Input>)
    requires Invariant(a)
    ensures Invariant(Run(c, a, inputs))
    decreases |inputs|
  {
    if inputs != [] {
      StepKeepsInvariant(c, a, inputs[0]);
      RunKeepsInvariant(c, Step(c, a, inputs[0]), inputs[1..]);
    }
  }

  /** Over a whole run the counter never decreases, no event bit is lost,
      main's history is only extended, and a rebooted main stays rebooted
      with its history unchanged. */
  lemma {:induction false} RunOnlyGrows(c: Config, a: App, inputs: seq<Input>)
    ensures var r := Run(c, a, inputs);
            && a.policy.tries <= r.policy.tries
            && a.events <= r.events
            && |a.main.trace| <= |r.main.trace| && r.main.trace[..|a.main.trace|] == a.main.trace
            && (a.main.stage == Lifecycle.Rebooted ==> r.main == a.main)
    decreases |inputs|
  {
    if inputs != [] {
      var a' := Step(c, a, inputs[0]);
      RunOnlyGrows(c, a', inputs[1..]);
      var r := Run(c, a, inputs);
      assert r.main.trace[..|a'.main.trace|][..|a.main.trace|] == r.main.trace[..|a.main.trace|];
    }
  }

  /** Whatever happens after power-on, the client is deactivated, exited
      and the system rebooted at most once, always in that order and as
      main's last three calls, and all three are made once main reaches
      its end; a main whose activation succeeded gets there only after a
      restart request. */
  lemma ShutdownHappensOnce(c: Config, confirmed: bool, inputs: seq<Input>)
    ensures var m := Run(c, Boot(confirmed), inputs).main;
            && (Lifecycle.Reboot in m.trace <==> m.stage == Lifecycle.Rebooted)
            && (m.stage == Lifecycle.Rebooted ==>
                  && |m.trace| >= 3
                  && m.trace[|m.trace| - 3..] == Lifecycle.Teardown
                  && forall k :: 0 <= k < |m.trace| - 3 ==> !Lifecycle.IsTeardownCall(m.trace[k]))
            && (m.stage == Lifecycle.Rebooted && m.activated ==>
                  Lifecycle.RestartRequested in Run(c, Boot(confirmed), inputs).events)
  {
    RunKeepsInvariant(c, Boot(confirmed), inputs);
    var m := Run(c, Boot(confirmed), inputs).main;
    if m.stage == Lifecycle.Rebooted {
      assert m.trace[|m.trace| - 1] == Lifecycle.Reboot;
      forall k | 0 <= k < |m.trace| - 3
        ensures !Lifecycle.IsTeardownCall(m.trace[k])
      {
        assert m.trace[k] in m.trace[..|m.trace| - 3];
      }
    }
  }

  /** What authentication_failure_cb returns when it is called in state `a`. */
  function FailureReply(c: Config, a: App): MenderErr
  {
    Authentication.OnFailure(a.policy, a.imageConfirmed, c.maxTries).ret
  }

  /** Once a failed authentication of the pending image has asked for the
      restart, no interleaving of other inputs makes a later failure return
      OK while the image is still pending. */
  lemma {:induction false} RollbackRequestStands(c: Config, a: App, inputs: seq<Input>)
    requires FailureReply(c, a) == MenderFail
    ensures var later := Run(c, Step(c, a, AuthFailure), inputs);
            !later.imageConfirmed ==> FailureReply(c, later) == MenderFail
  {
    RunOnlyGrows(c, Step(c, a, AuthFailure), inputs);
  }

  /** Once the image is confirmed it stays confirmed, and from then on every
      failed authentication, whatever else happens in between, returns OK
      and leaves the counter where it was: a confirmed image is never rolled
      back. */
  lemma {:induction false} ConfirmedImageStands(c: Config, a: App, inputs: seq<Input>)
    requires a.imageConfirmed
    ensures var r := Run(c, a, inputs);
            && r.imageConfirmed && r.policy == a.policy
            && FailureReply(c, r) == MenderOk
            && Step(c, r, AuthFailure).policy == a.policy
    decreases |inputs|
  {
    if inputs != [] {
      ConfirmedImageStands(c, Step(c, a, inputs[0]), inputs[1..]);
    }
  }

  /** A successful authentication followed by a failed one: if the success
      confirmed the image, the failure is answered OK without spending a try;
      if the troubleshoot activation or the confirmation failed, a pending
      image stays pending and the failure spends a try. */
  lemma SuccessThenFailure(c: Config, a: App, activateRet: MenderErr, confirmRet: MenderErr)
    requires !a.imageConfirmed
    ensures var s := Step(c, a, AuthSuccess(activateRet, confirmRet));
            var r := Step(c, s, AuthFailure);
            && (Authentication.OnSuccess(c.build.troubleshoot, activateRet, confirmRet).ret == MenderOk ==>
                  s.imageConfirmed && r.policy == a.policy && FailureReply(c, s) == MenderOk)
            && (Authentication.OnSuccess(c.build.troubleshoot, activateRet, confirmRet).ret != MenderOk ==>
                  !s.imageConfirmed && r.policy.tries == a.policy.tries + 1)
  {
  }

  /** A success whose troubleshoot activation fails returns before the image
      is confirmed, so the image's state is left as it was. */
  lemma FailedTroubleshootKeepsPending(c: Config, a: App, activateRet: MenderErr, confirmRet: MenderErr)
    requires c.build.troubleshoot && activateRet != MenderOk
    ensures Step(c, a, AuthSuccess(activateRet, confirmRet)).imageConfirmed == a.imageConfirmed
  {
  }

  /** Every call main checks succeeds. */
  const AllOk: Lifecycle.Outcomes := Lifecycle.Outcomes(true, true, true, true, true, true)

  /** Everything compiled in, main's set-up as written, and a threshold of
      three failed authentications. */
  const FullBuild: Config :=
    Config(Lifecycle.Build(true, true, true, true, true, true), Lifecycle.CallsInsideAssert, 3)

  /** The normal life of the application: the network comes up, main
      configures and activates the client, the image is confirmed, the
      hello-world module arrives in two chunks and is run, a restart is
      requested, and main tears down and reboots. */
  function NormalLife(chunk1: seq<byte>, chunk2: seq<byte>): seq<Input>
  {
    StartUpInputs + DeploymentInputs(chunk1, chunk2) + RestartInputs
  }

  const StartUpInputs: seq<Input> :=
    [MainRuns(AllOk), NetEvent(Lifecycle.Ipv4AddrAdd), MainRuns(AllOk), MainRuns(AllOk)]

  function DeploymentInputs(chunk1: seq<byte>, chunk2: seq<byte>): seq<Input>
  {
    [ AuthSuccess(MenderOk, MenderOk),
      ModuleChunk(Some(chunk1), true), ModuleChunk(Some(chunk2), true),
      DeploymentStatus(HelloWorldModule.Installing, true) ]
  }

  const RestartInputs: seq<Input> := [RestartCallback, MainRuns(AllOk), MainRuns(AllOk)]

  /** main leaves its first stage at once, and the network wait as soon as
      the network is announced; callbacks' state is left alone. */
  lemma MainAdvances(c: Config, a: App, o: Lifecycle.Outcomes)
    requires a.main.stage == Lifecycle.Booting || (a.main.stage == Lifecycle.AwaitingNetwork && Lifecycle.NetworkUp in a.events)
    ensures var r := Step(c, a, MainRuns(o));
            && r.main.stage == (if a.main.stage == Lifecycle.Booting then Lifecycle.AwaitingNetwork else Lifecycle.Configuring)
            && r.events == a.events && r.policy == a.policy && r.helloWorld == a.helloWorld
  {
  }

  /** With every call succeeding, configuring leads to the restart wait. */
  lemma ConfiguringSucceeds(c: Config, a: App)
    requires a.main.stage == Lifecycle.Configuring
    ensures var r := Step(c, a, MainRuns(AllOk));
            r.main.stage == Lifecycle.AwaitingRestart && r.policy == a.policy && r.helloWorld == a.helloWorld
  {
    ConfiguringSucceedsForMain(a.main, c.build, c.text, a.events);
  }

  lemma ConfiguringSucceedsForMain(m: Lifecycle.Main, b: Lifecycle.Build, text: Lifecycle.SetupText,
                                   events: set<Lifecycle.Event>)
    requires m.stage == Lifecycle.Configuring
    ensures Lifecycle.MainStep(m, b, text, events, AllOk).stage == Lifecycle.AwaitingRestart
  {
    var cs := Lifecycle.SetupCalls(b, AllOk);
    assert !Lifecycle.SomeAssertionFails(cs) by {
      forall i | 0 <= i < |cs|
        ensures cs[i].ok
      {
        assert cs[i] in cs;
      }
    }
  }

  /** The release step reboots whatever the event bits and callbacks'
      state: deactivate, exit and reboot are made, and main ends. */
  lemma ReleaseReboots(c: Config, a: App, o: Lifecycle.Outcomes)
    requires a.main.stage == Lifecycle.Releasing
    ensures var r := Step(c, a, MainRuns(o));
            && r.main.stage == Lifecycle.Rebooted
            && r.main.trace == a.main.trace + Lifecycle.Teardown
            && r.events == a.events && r.policy == a.policy && r.helloWorld == a.helloWorld
  {
  }

  /** A failed activation does not wait for a restart request: with no
      enabled assertion failing, the next two steps of main tear down and
      reboot whatever the event bits. */
  lemma FailedActivationReboots(c: Config, a: App, o: Lifecycle.Outcomes, o2: Lifecycle.Outcomes)
    requires a.main.stage == Lifecycle.Configuring && !o.activateOk
    requires !(c.build.assertions && Lifecycle.SomeAssertionFails(Lifecycle.SetupCalls(c.build, o)))
    ensures var s := Step(c, a, MainRuns(o));
            var r := Step(c, s, MainRuns(o2));
            && s.main.stage == Lifecycle.Releasing && !s.main.activated
            && r.main.stage == Lifecycle.Rebooted
            && r.main.trace == s.main.trace + Lifecycle.Teardown
            && r.events == a.events
  {
  }

  /** main's set-up as written, built without assertions: the configuring
      step activates the client without ever initialising it or making a
      registration, whatever the calls' outcomes. */
  lemma AsWrittenNeverInitialises(c: Config, a: App, o: Lifecycle.Outcomes)
    requires c.text == Lifecycle.CallsInsideAssert && !c.build.assertions
    requires a.main.stage == Lifecycle.Configuring
    ensures var t := Step(c, a, MainRuns(o)).main.trace[|a.main.trace|..];
            && Lifecycle.ClientActivate in t
            && Lifecycle.ClientInit !in t && Lifecycle.RegisterArtifactType !in t
            && forall i :: 0 <= i < |t| ==> !t[i].RegisterAddon?
  {
    var cs := Lifecycle.SetupCalls(c.build, o);
    var w := Lifecycle.ConfigureAsWritten(cs, false, o.activateOk);
    var t := Step(c, a, MainRuns(o)).main.trace[|a.main.trace|..];
    assert t == w.trace;
    Lifecycle.UninitialisedActivation(c.build, o);
    assert w.trace[|w.trace| - 1] == Lifecycle.ClientActivate;
  }

  /** Running two input sequences one after the other. */
  lemma {:induction false} RunAppend(c: Config, a: App, xs: seq<Input>, ys: seq<Input>)
    ensures Run(c, a, xs + ys) == Run(c, Run(c, a, xs), ys)
    decreases |xs|
  {
    if xs == [] {
      assert xs + ys == ys;
    } else {
      assert (xs + ys)[0] == xs[0];
      assert (xs + ys)[1..] == xs[1..] + ys;
      RunAppend(c, Step(c, a, xs[0]), xs[1..], ys);
    }
  }

  /** Start-up with every call succeeding: main starts the network, sees the
      address arrive, configures and activates the client, and waits for a
      restart request. */
  lemma StartUp(c: Config, a: App)
    requires a.main == Lifecycle.Start
    ensures var r := Run(c, a, StartUpInputs);
            && r.main.stage == Lifecycle.AwaitingRestart && r.policy == a.policy && r.helloWorld == a.helloWorld
            && r.imageConfirmed == a.imageConfirmed
  {
    var ins := StartUpInputs;
    var s1 := Step(c, a, ins[0]);
    MainAdvances(c, a, AllOk);
    var s2 := Step(c, s1, ins[1]);
    var s3 := Step(c, s2, ins[2]);
    MainAdvances(c, s2, AllOk);
    ConfiguringSucceeds(c, s3);
    RunFour(c, a, ins);
  }

  /** A run of four inputs is four steps. */
  lemma RunFour(c: Config, a: App, ins: seq<Input>)
    requires |ins| == 4
    ensures Run(c, a, ins) == Step(c, Step(c, Step(c, Step(c, a, ins[0]), ins[1]), ins[2]), ins[3])
  {
    var s1 := Step(c, a, ins[0]);
    var s2 := Step(c, s1, ins[1]);
    var s3 := Step(c, s2, ins[2]);
    RunSteps(c, a, ins, [s1, s2, s3, Step(c, s3, ins[3])]);
  }

  /** The module phase: the authentication confirms the image, and two
      chunks and the installing status leave the memory freed and main
      where it was. */
  lemma ModuleInstalled(c: Config, a: App, chunk1: seq<byte>, chunk2: seq<byte>)
    requires c.build.llext && chunk1 != []
    ensures var r := Run(c, a, DeploymentInputs(chunk1, chunk2));
            && r.helloWorld == HelloWorldModule.Released && r.main == a.main && r.policy == a.policy
            && r.imageConfirmed
  {
    var ins := DeploymentInputs(chunk1, chunk2);
    var s1 := Step(c, a, ins[0]);
    var s2 := Step(c, s1, ins[1]);
    var s3 := Step(c, s2, ins[2]);
    assert s3.helloWorld.Held? && |s3.helloWorld.bytes| != 0;
    var s4 := Step(c, s3, ins[3]);
    RunSteps(c, a, ins, [s1, s2, s3, s4]);
  }

  /** The restart phase: the request releases the wait, and main tears down
      and reboots. */
  lemma RestartAndReboot(c: Config, a: App)
    requires a.main.stage == Lifecycle.AwaitingRestart
    ensures var r := Run(c, a, RestartInputs);
            && r.main.stage == Lifecycle.Rebooted && r.helloWorld == a.helloWorld && r.policy == a.policy
            && r.imageConfirmed == a.imageConfirmed
  {
    var ins := RestartInputs;
    var s1 := Step(c, a, ins[0]);
    var s2 := Step(c, s1, ins[1]);
    var s3 := Step(c, s2, ins[2]);
    RunSteps(c, a, ins, [s1, s2, s3]);
  }

  /** The normal life of a newly installed, still pending image ends
      rebooted, with the image confirmed, the module memory freed and the
      retry counter untouched. */
  lemma HappyPath(chunk1: seq<byte>, chunk2: seq<byte>)
    requires chunk1 != []
    ensures var r := Run(FullBuild, Boot(false), NormalLife(chunk1, chunk2));
            && r.main.stage == Lifecycle.Rebooted
            && r.helloWorld == HelloWorldModule.Released
            && r.policy == Authentication.Initial
            && r.imageConfirmed
  {
    var c := FullBuild;
    StartUp(c, Boot(false));
    var a4 := Run(c, Boot(false), StartUpInputs);
    ModuleInstalled(c, a4, chunk1, chunk2);
    var a8 := Run(c, a4, DeploymentInputs(chunk1, chunk2));
    RestartAndReboot(c, a8);
    RunAppend(c, Boot(false), StartUpInputs + DeploymentInputs(chunk1, chunk2), RestartInputs);
    RunAppend(c, Boot(false), StartUpInputs, DeploymentInputs(chunk1, chunk2));
  }

  /** A run is the chain of its single steps. */
  lemma {:induction false} RunSteps(c: Config, a: App, inputs: seq<Input>, states: seq<App>)
    requires |states| == |inputs| > 0
    requires states[0] == Step(c, a, inputs[0])
    requires forall k :: 0 < k < |inputs| ==> states[k] == Step(c, states[k - 1], inputs[k])
    ensures Run(c, a, inputs) == states[|states| - 1]
    decreases |inputs|
  {
    if |inputs| > 1 {
      RunSteps(c, states[0], inputs[1..], states[1..]);
    }
  }
}
