/** The boots of one device, as main of cmd/agent/main.go starts them: each makes one call of
    loadOrCreateIdentity, and its token manager registers the key only if that call created
    it. The calls may overlap in any way (module DeviceKey). */
module Boots {
  import opened Prelude
  import opened DeviceKey
  import Token

  /** The enrolment secret a boot found, and the answer its registration would get. */
  datatype Boot = Boot(secret: string, reply: Token.KeyReply)

  /** What becomes of the registration in the boot that made call i. */
  function Registration(t: State, boots: seq<Boot>, i: nat): Token.Registration
    requires i < |t.calls| == |boots|
  {
    Token.Register(HasCreated(t.calls[i]), boots[i].secret, boots[i].reply)
  }

  ghost predicate KeyRegistered(t: State, boots: seq<Boot>)
    requires |t.calls| == |boots|
  {
    exists i :: 0 <= i < |boots| && Registration(t, boots, i).Registered?
  }

  /** Only the boot that created the key ever asks, so the key is registered exactly when that
      boot had the secret and was answered 200; no other boot makes up for it. */
  lemma RegisteredIff(s: State, as_: seq<Action>, boots: seq<Boot>, i: nat)
    requires Initial(s) && Run(s, as_).Some? && |Run(s, as_).value.calls| == |boots|
    requires i < |boots| && HasCreated(Run(s, as_).value.calls[i])
    ensures var t := Run(s, as_).value;
            && (KeyRegistered(t, boots) <==> boots[i].secret != "" && boots[i].reply == 200)
            && forall j :: 0 <= j < |boots| && j != i ==> Registration(t, boots, j).NotNeeded?
  {
    hide Run;
    AtMostOneCreated(s, as_);
    var t := Run(s, as_).value;
    assert Registration(t, boots, i).Registered? <==> boots[i].secret != "" && boots[i].reply == 200;
  }

  /** Without a creator nobody asks: a key that was there before the first boot, or whose
      creator failed, is never registered. */
  lemma NoCreatorNoRegistration(t: State, boots: seq<Boot>)
    requires |t.calls| == |boots| && forall i :: 0 <= i < |boots| ==> !HasCreated(t.calls[i])
    ensures !KeyRegistered(t, boots)
  {
  }

  function TwoBoots(a: Bytes): seq<Action> {
    [Call, Open(0), Generate(0, a), Create(0), WriteSome(0, SEED_SIZE), Sync(0), Close(0), Call, Open(1), Read(1)]
  }

  /** The server fails once at first boot and would accept at the second: the key exists, and
      the registration is not retried. */
  lemma FailedRegistrationIsNotRetried(a: Bytes)
    requires |a| == SEED_SIZE
    ensures var boots := [Boot("secret", 500), Boot("secret", 200)];
            exists as_ :: Run(State([], [], None), as_).Some? && |Run(State([], [], None), as_).value.calls| == 2
              && Run(State([], [], None), as_).value.calls[1] == Done(Loaded(a), Some(0))
              && !KeyRegistered(Run(State([], [], None), as_).value, boots)
  {
    hide Run;
    assert a[..SEED_SIZE] == a;
    var s0, as_ := State([], [], None), TwoBoots(a);
    var s7 := FirstBoot(a);
    var s8 := Step(s0, as_, 7, s7);
    var s9 := Step(s0, as_, 8, s8);
    var s10 := Step(s0, as_, 9, s9);
    assert s10.calls == [Done(Created(a), Some(0)), Done(Loaded(a), Some(0))];
    assert as_[..10] == as_;
    var boots := [Boot("secret", 500), Boot("secret", 200)];
    RegisteredIff(s0, as_, boots, 0);
  }

  lemma FirstBoot(a: Bytes) returns (s7: State)
    requires |a| == SEED_SIZE
    ensures Run(State([], [], None), TwoBoots(a)[..7]) == Some(s7)
    ensures s7 == State([Done(Created(a), Some(0))], [Inode(a, a)], Some(0))
  {
    hide Run;
    assert a[..SEED_SIZE] == a;
    var s0, as_ := State([], [], None), TwoBoots(a);
    NoSteps(s0, as_);
    var s1 := Step(s0, as_, 0, s0);
    var s2 := Step(s0, as_, 1, s1);
    var s3 := Step(s0, as_, 2, s2);
    var s4 := Step(s0, as_, 3, s3);
    var s5 := Step(s0, as_, 4, s4);
    assert s5.calls == [Written(0, a)] && s5.inodes == [Inode(a, a)];
    var s6 := Step(s0, as_, 5, s5);
    s7 := Step(s0, as_, 6, s6);
    assert s7.calls == [Done(Created(a), Some(0))];
  }
}
