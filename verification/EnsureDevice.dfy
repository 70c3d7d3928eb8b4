/** Getting a usable device: refresh the persisted one, else reuse it, else register a new one. */
module EnsureDevice {
  import opened Bytes
  import opened DeviceState
  import opened Strings
  import opened Endpoint
  import App

  datatype Call =
    | Register(publicKey: Text)
    | Enable(id: Text, token: Text)
    | Fetch(id: Text, token: Text)
    | SetLicense(id: Text, token: Text, license: Text)

  datatype Registration = Registration(id: Text, token: Text)

  /** A generated key pair in text form. */
  datatype Keys = Keys(secret: Text, shared: Text)

  /** The WARP API: each answer may depend on every call made so far. None and false are errors. */
  datatype Api = Api(
    register: seq<Call> -> Option<Registration>,
    enable: seq<Call> -> bool,
    fetch: seq<Call> -> Option<Device>,
    setLicense: seq<Call> -> bool)

  /** The API, and the outcome of key generation. */
  datatype Env = Env(api: Api, keys: Option<Keys>) {
    ghost predicate Valid() {
      keys.Some? ==> keys.value.secret != []
    }
  }

  /** The calls made so far, and the state when there is one. */
  datatype Outcome = Outcome(calls: seq<Call>, state: Option<State>)

  function NormalizeLicense(raw: Text): Text {
    var license := TrimSpace(raw);
    if license == Lit("unspecified") then [] else license
  }

  predicate HasCredentials(st: State) {
    st.deviceId != [] && st.accessToken != [] && st.privateKey != []
  }

  /** isReusableLegacyState. */
  predicate IsReusable(st: State) {
    && 0 < st.schemaVersion && HasCredentials(st)
    && st.peerPublicKey != [] && st.peerEndpoint != [] && st.tunnelProtocol == WIREGUARD()
  }

  /** Enable a device and take its state, which must be one of a WireGuard device. */
  function Take(api: Api, calls: seq<Call>, id: Text, token: Text, secret: Text, shared: Text): Outcome {
    var enabled := calls + [Enable(id, token)];
    if !api.enable(enabled) then Outcome(enabled, None)
    else
      var fetched := enabled + [Fetch(id, token)];
      match api.fetch(fetched)
      case None => Outcome(fetched, None)
      case Some(device) =>
        var next := StateFromDevice(device, id, token, secret, shared);
        Outcome(fetched, if next.Some? && next.value.tunnelProtocol == WIREGUARD() then next else None)
  }

  function Refresh(api: Api, calls: seq<Call>, st: State): Outcome {
    if HasCredentials(st) then Take(api, calls, st.deviceId, st.accessToken, st.privateKey, st.publicKey)
    else Outcome(calls, None)
  }

  function SendLicense(api: Api, calls: seq<Call>, st: State, license: Text): Outcome {
    var sent := calls + [SetLicense(st.deviceId, st.accessToken, license)];
    Outcome(sent, if api.setLicense(sent) then Some(st.(license := license)) else None)
  }

  function RegisterDevice(e: Env, calls: seq<Call>, cfg: Config): Outcome {
    if e.keys.None? then Outcome(calls, None)
    else
      var keys := e.keys.value;
      var registered := calls + [Register(keys.shared)];
      match e.api.register(registered)
      case None => Outcome(registered, None)
      case Some(r) =>
        if r.id == [] || r.token == [] then Outcome(registered, None)
        else
          var taken := Take(e.api, registered, r.id, r.token, keys.secret, keys.shared);
          var license := NormalizeLicense(cfg.license);
          if taken.state.None? || license == [] then taken
          else SendLicense(e.api, taken.calls, taken.state.value, license)
  }

  function ApplyLicense(api: Api, calls: seq<Call>, cfg: Config, st: State): Outcome {
    var license := NormalizeLicense(cfg.license);
    if license == [] || license == st.license then Outcome(calls, Some(st))
    else if st.deviceId == [] || st.accessToken == [] then Outcome(calls, None)
    else SendLicense(api, calls, st, license)
  }

  /** EnsureDevice, after the given calls. */
  function Ensure(e: Env, calls: seq<Call>, cfg: Config, persisted: State): Outcome {
    var current := persisted.(schemaVersion := 1);
    var refreshed := Refresh(e.api, calls, current);
    if refreshed.state.Some? then ApplyLicense(e.api, refreshed.calls, cfg, refreshed.state.value)
    else if IsReusable(current) then ApplyLicense(e.api, refreshed.calls, cfg, current)
    else
      var created := RegisterDevice(e, refreshed.calls, cfg);
      if created.state.None? then created else ApplyLicense(e.api, created.calls, cfg, created.state.value)
  }

  class Bootstrapper {
    const env: Env
    var calls: seq<Call>

    constructor (env: Env)
      ensures this.env == env && calls == []
    {
      this.env, calls := env, [];
    }

    method EnsureDevice(cfg: Config, persisted: State) returns (state: Option<State>)
      modifies this
      ensures Outcome(calls, state) == Ensure(env, old(calls), cfg, persisted)
    {
      var current := persisted.(schemaVersion := 1);
      var refreshed := RefreshDevice(current);
      if refreshed.Some? {
        state := SetConfiguredLicense(cfg, refreshed.value);
        return;
      }
      if IsReusable(current) {
        state := SetConfiguredLicense(cfg, current);
        return;
      }
      var created := RegisterNew(cfg);
      if created.None? {
        return None;
      }
      state := SetConfiguredLicense(cfg, created.value);
    }

    method RefreshDevice(current: State) returns (state: Option<State>)
      modifies this
      ensures Outcome(calls, state) == Refresh(env.api, old(calls), current)
    {
      if current.deviceId == [] || current.accessToken == [] || current.privateKey == [] {
        return None;
      }
      state := TakeDevice(current.deviceId, current.accessToken, current.privateKey, current.publicKey);
    }

    method TakeDevice(id: Text, token: Text, secret: Text, shared: Text) returns (state: Option<State>)
      modifies this
      ensures Outcome(calls, state) == Take(env.api, old(calls), id, token, secret, shared)
    {
      calls := calls + [Enable(id, token)];
      if !env.api.enable(calls) {
        return None;
      }
      calls := calls + [Fetch(id, token)];
      var device := env.api.fetch(calls);
      if device.None? {
        return None;
      }
      state := StateFromDevice(device.value, id, token, secret, shared);
      if state.Some? && state.value.tunnelProtocol != WIREGUARD() {
        state := None;
      }
    }

    method RegisterNew(cfg: Config) returns (state: Option<State>)
      modifies this
      ensures Outcome(calls, state) == RegisterDevice(env, old(calls), cfg)
    {
      if env.keys.None? {
        return None;
      }
      var keys := env.keys.value;
      calls := calls + [Register(keys.shared)];
      var registration := env.api.register(calls);
      if registration.None? || registration.value.id == [] || registration.value.token == [] {
        return None;
      }
      state := TakeDevice(registration.value.id, registration.value.token, keys.secret, keys.shared);
      var license := NormalizeLicense(cfg.license);
      if state.Some? && license != [] {
        state := UpdateLicense(state.value, license);
      }
    }

    method SetConfiguredLicense(cfg: Config, current: State) returns (state: Option<State>)
      modifies this
      ensures Outcome(calls, state) == ApplyLicense(env.api, old(calls), cfg, current)
    {
      var license := NormalizeLicense(cfg.license);
      if license == [] || license == current.license {
        return Some(current);
      }
      if current.deviceId == [] || current.accessToken == [] {
        return None;
      }
      state := UpdateLicense(current, license);
    }

    method UpdateLicense(current: State, license: Text) returns (state: Option<State>)
      modifies this
      ensures Outcome(calls, state) == SendLicense(env.api, old(calls), current, license)
    {
      calls := calls + [SetLicense(current.deviceId, current.accessToken, license)];
      if !env.api.setLicense(calls) {
        return None;
      }
      state := Some(current.(license := license));
    }
  }

  // ---------- the contract ----------

  function LicensesSent(calls: seq<Call>): nat {
    if calls == [] then 0
    else LicensesSent(calls[..|calls| - 1]) + if calls[|calls| - 1].SetLicense? then 1 else 0
  }

  function Registrations(calls: seq<Call>): nat {
    if calls == [] then 0
    else Registrations(calls[..|calls| - 1]) + if calls[|calls| - 1].Register? then 1 else 0
  }

  lemma CountNext(calls: seq<Call>, c: Call)
    ensures LicensesSent(calls + [c]) == LicensesSent(calls) + if c.SetLicense? then 1 else 0
    ensures Registrations(calls + [c]) == Registrations(calls) + if c.Register? then 1 else 0
  {
    assert (calls + [c])[..|calls|] == calls;
  }

  /** A device one can bring up: identified, with a key, and on WireGuard. */
  predicate Usable(st: State) {
    HasCredentials(st) && st.schemaVersion == 1 && st.tunnelProtocol == WIREGUARD()
  }

  /** What a stage may do: it sends so many licences and registrations, and its state is usable. */
  ghost predicate Stage(o: Outcome, calls: seq<Call>, licenses: nat, registrations: nat) {
    && LicensesSent(o.calls) <= LicensesSent(calls) + licenses
    && Registrations(o.calls) <= Registrations(calls) + registrations
    && (o.state.Some? ==> Usable(o.state.value))
  }

  lemma StateIsUsable(d: Device, id: Text, token: Text, secret: Text, shared: Text)
    requires secret != []
    ensures var st := StateFromDevice(d, id, token, secret, shared);
            st.Some? ==>
              && st.value.privateKey == secret
              && (st.value.tunnelProtocol == WIREGUARD() ==> Usable(st.value))
  {
    hide TunnelProtocol, JoinEndpoint, WIREGUARD, TrimSpace;
  }

  lemma TakeStage(api: Api, calls: seq<Call>, id: Text, token: Text, secret: Text, shared: Text)
    requires secret != []
    ensures var o := Take(api, calls, id, token, secret, shared);
            Stage(o, calls, 0, 0) && (o.state.Some? ==> o.state.value.privateKey == secret)
  {
    hide StateFromDevice, WIREGUARD, Usable, LicensesSent, Registrations, TrimSpace;
    var enabled := calls + [Enable(id, token)];
    var fetched := enabled + [Fetch(id, token)];
    CountNext(calls, Enable(id, token));
    CountNext(enabled, Fetch(id, token));
    var device := api.fetch(fetched);
    if device.Some? {
      StateIsUsable(device.value, id, token, secret, shared);
    }
  }

  lemma SendStage(api: Api, calls: seq<Call>, st: State, license: Text)
    requires Usable(st)
    ensures var o := SendLicense(api, calls, st, license);
            && Stage(o, calls, 1, 0)
            && (o.state.Some? ==> o.state.value == st.(license := license))
  {
    CountNext(calls, SetLicense(st.deviceId, st.accessToken, license));
  }

  lemma RegisterStage(e: Env, calls: seq<Call>, cfg: Config)
    requires e.Valid()
    ensures var o := RegisterDevice(e, calls, cfg);
            var license := NormalizeLicense(cfg.license);
            && Stage(o, calls, if license == [] then 0 else 1, 1)
            && (o.state.Some? ==> license == [] || o.state.value.license == license)
            && (o.state.Some? ==> o.state.value.privateKey == e.keys.value.secret)
  {
    if e.keys.Some? {
      var keys := e.keys.value;
      CountNext(calls, Register(keys.shared));
      var registered := calls + [Register(keys.shared)];
      var r := e.api.register(registered);
      if r.Some? && r.value.id != [] && r.value.token != [] {
        TakeStage(e.api, registered, r.value.id, r.value.token, keys.secret, keys.shared);
        var taken := Take(e.api, registered, r.value.id, r.value.token, keys.secret, keys.shared);
        hide Take, SendLicense, NormalizeLicense, LicensesSent, Registrations, Usable;
        if taken.state.Some? {
          SendStage(e.api, taken.calls, taken.state.value, NormalizeLicense(cfg.license));
        }
      }
    }
  }

  lemma LicenseStage(api: Api, calls: seq<Call>, cfg: Config, st: State)
    requires Usable(st)
    ensures var o := ApplyLicense(api, calls, cfg, st);
            var license := NormalizeLicense(cfg.license);
            && Stage(o, calls, if license in {[], st.license} then 0 else 1, 0)
            && (o.state.Some? ==> o.state.value.license == if license == [] then st.license else license)
            && (o.state.Some? ==> o.state.value == st.(license := o.state.value.license))
  {
    hide SendLicense, NormalizeLicense, LicensesSent, Registrations;
    SendStage(api, calls, st, NormalizeLicense(cfg.license));
  }

  /**
   * For every behaviour of the API: a device that is returned is usable and has the configured licence, if there is
   * one; and no more than one licence is sent, none when none is configured.
   */
  lemma EnsureContract(e: Env, calls: seq<Call>, cfg: Config, persisted: State)
    requires e.Valid()
    ensures var o := Ensure(e, calls, cfg, persisted);
            var license := NormalizeLicense(cfg.license);
            && (o.state.Some? ==> Usable(o.state.value) && (license != [] ==> o.state.value.license == license))
            && LicensesSent(o.calls) <= LicensesSent(calls) + (if license == [] then 0 else 1)
            && Registrations(o.calls) <= Registrations(calls) + 1
  {
    var current := persisted.(schemaVersion := 1);
    if HasCredentials(current) {
      TakeStage(e.api, calls, current.deviceId, current.accessToken, current.privateKey, current.publicKey);
    }
    var refreshed := Refresh(e.api, calls, current);
    hide Take, RegisterDevice, ApplyLicense, NormalizeLicense, LicensesSent, Registrations, WIREGUARD;
    if refreshed.state.Some? {
      LicenseStage(e.api, refreshed.calls, cfg, refreshed.state.value);
    } else if IsReusable(current) {
      LicenseStage(e.api, refreshed.calls, cfg, current);
    } else {
      RegisterStage(e, refreshed.calls, cfg);
      var created := RegisterDevice(e, refreshed.calls, cfg);
      if created.state.Some? {
        LicenseStage(e.api, created.calls, cfg, created.state.value);
      }
    }
  }

  lemma RegisterComesFirst(e: Env, calls: seq<Call>, cfg: Config)
    ensures var o := RegisterDevice(e, calls, cfg);
            && (e.keys.None? ==> o == Outcome(calls, None))
            && (e.keys.Some? ==> calls + [Register(e.keys.value.shared)] <= o.calls)
  {
    hide StateFromDevice, NormalizeLicense;
  }

  lemma TakeExtends(api: Api, calls: seq<Call>, id: Text, token: Text, secret: Text, shared: Text)
    ensures calls <= Take(api, calls, id, token, secret, shared).calls
  {
    hide StateFromDevice, WIREGUARD;
  }

  lemma LicenseExtends(api: Api, calls: seq<Call>, cfg: Config, st: State)
    ensures calls <= ApplyLicense(api, calls, cfg, st).calls
  {
    hide NormalizeLicense;
  }

  /** A state without credentials is never used: the first call, if any, registers, and the key is a new one. */
  lemma WithoutCredentialsRegisters(e: Env, calls: seq<Call>, cfg: Config, persisted: State)
    requires e.Valid() && !HasCredentials(persisted)
    ensures var o := Ensure(e, calls, cfg, persisted);
            && (e.keys.None? ==> o == Outcome(calls, None))
            && (e.keys.Some? ==> calls + [Register(e.keys.value.shared)] <= o.calls)
            && (o.state.Some? ==> o.state.value.privateKey == e.keys.value.secret)
  {
    RegisterStage(e, calls, cfg);
    RegisterComesFirst(e, calls, cfg);
    var created := RegisterDevice(e, calls, cfg);
    var current := persisted.(schemaVersion := 1);
    assert !IsReusable(current) && Refresh(e.api, calls, current) == Outcome(calls, None);
    hide RegisterDevice, ApplyLicense, NormalizeLicense, WIREGUARD, LicensesSent, Registrations;
    if created.state.Some? {
      LicenseStage(e.api, created.calls, cfg, created.state.value);
      LicenseExtends(e.api, created.calls, cfg, created.state.value);
    }
  }

  /** From the empty state, which the retry of the daemon starts from, a device is always registered afresh. */
  lemma EmptyRegisters(e: Env, calls: seq<Call>, cfg: Config)
    requires e.Valid()
    ensures Ensure(e, calls, cfg, EMPTY).state.Some? ==>
              Registrations(Ensure(e, calls, cfg, EMPTY).calls) == Registrations(calls) + 1
  {
    EnsureContract(e, calls, cfg, EMPTY);
    WithoutCredentialsRegisters(e, calls, cfg, EMPTY);
    if e.keys.Some? {
      CountNext(calls, Register(e.keys.value.shared));
      RegistrationsGrow(calls + [Register(e.keys.value.shared)], Ensure(e, calls, cfg, EMPTY).calls);
    }
  }

  lemma {:induction false} RegistrationsGrow(calls: seq<Call>, more: seq<Call>)
    requires calls <= more
    ensures Registrations(calls) <= Registrations(more)
  {
    if |calls| < |more| {
      RegistrationsGrow(calls, more[..|more| - 1]);
    } else {
      assert calls == more;
    }
  }

  /** A registration happens only if the refresh failed and the persisted state is not reusable. */
  lemma ReusableNeverRegisters(e: Env, calls: seq<Call>, cfg: Config, persisted: State)
    requires e.Valid() && IsReusable(persisted.(schemaVersion := 1))
    ensures var o := Ensure(e, calls, cfg, persisted);
            && Registrations(o.calls) == Registrations(calls)
            && (o.state.Some? ==> o.state.value.privateKey == persisted.privateKey)
  {
    var current := persisted.(schemaVersion := 1);
    assert HasCredentials(current) && Usable(current);
    TakeStage(e.api, calls, current.deviceId, current.accessToken, current.privateKey, current.publicKey);
    TakeExtends(e.api, calls, current.deviceId, current.accessToken, current.privateKey, current.publicKey);
    var refreshed := Refresh(e.api, calls, current);
    var kept := if refreshed.state.Some? then refreshed.state.value else current;
    hide Take, ApplyLicense, NormalizeLicense, IsReusable, HasCredentials, Usable, WIREGUARD, LicensesSent,
         Registrations;
    LicenseStage(e.api, refreshed.calls, cfg, kept);
    LicenseExtends(e.api, refreshed.calls, cfg, kept);
    assert Ensure(e, calls, cfg, persisted) == ApplyLicense(e.api, refreshed.calls, cfg, kept);
    RegistrationsGrow(calls, Ensure(e, calls, cfg, persisted).calls);
  }

  /**
   * A device once obtained is kept: what Ensure returned is reused by every later run, under any behaviour of the
   * API, if it names a peer key and a peer host; and a later run that fails with it is retried afresh.
   */
  lemma ObtainedIsKept(e: Env, calls: seq<Call>, cfg: Config, persisted: State,
                       later: Env, laterCalls: seq<Call>, laterCfg: Config, err: App.Error)
    requires e.Valid() && later.Valid()
    ensures var o := Ensure(e, calls, cfg, persisted);
            o.state.Some? ==>
              var st := o.state.value;
              var o' := Ensure(later, laterCalls, laterCfg, st);
              && App.ShouldRetry(st, Some(err))
              && (st.peerPublicKey != [] && st.peerEndpoint != [] ==>
                    Registrations(o'.calls) == Registrations(laterCalls)
                    && (o'.state.Some? ==> o'.state.value.privateKey == st.privateKey))
  {
    EnsureContract(e, calls, cfg, persisted);
    var o := Ensure(e, calls, cfg, persisted);
    if o.state.Some? && o.state.value.peerPublicKey != [] && o.state.value.peerEndpoint != [] {
      ReusableNeverRegisters(later, laterCalls, laterCfg, o.state.value);
    }
  }

  // ---------- in terms of what the API answers ----------

  /** The API enables the device and reports it, with a peer, with an id and a token of its own or as asked for. */
  ghost predicate Delivers(api: Api, calls: seq<Call>, id: Text, token: Text, device: Device) {
    && api.enable(calls + [Enable(id, token)])
    && api.fetch(calls + [Enable(id, token), Fetch(id, token)]) == Some(device)
    && device.peers != [] && (device.id != [] || id != []) && (device.token != [] || token != [])
  }

  /** A device is taken if and only if it is delivered and speaks WireGuard. */
  lemma TakenIff(api: Api, calls: seq<Call>, id: Text, token: Text, secret: Text, shared: Text)
    ensures Take(api, calls, id, token, secret, shared).state.Some? <==>
              exists device :: Delivers(api, calls, id, token, device) && SpeaksWireGuard(device)
  {
    hide TunnelProtocol, WIREGUARD, SpeaksWireGuard, JoinEndpoint;
    TwoCalls(calls, Enable(id, token), Fetch(id, token));
    var device := api.fetch(calls + [Enable(id, token), Fetch(id, token)]);
    if device.Some? {
      ProtocolIff(device.value);
    }
  }

  lemma TwoCalls(calls: seq<Call>, c: Call, d: Call)
    ensures calls + [c] + [d] == calls + [c, d]
  {
  }

  /** The persisted state can be used without the API: it is identified, keyed, and says where its peer is. */
  ghost predicate SelfSufficient(st: State) {
    && st.deviceId != [] && st.accessToken != [] && st.privateKey != []
    && st.peerPublicKey != [] && st.peerEndpoint != [] && st.tunnelProtocol == Lit("wireguard")
  }

  lemma ReusableIff(st: State)
    ensures IsReusable(st) <==> 0 < st.schemaVersion && SelfSufficient(st)
  {
  }

  /** The refresh of a persisted state succeeds. */
  ghost predicate Refreshes(api: Api, calls: seq<Call>, st: State) {
    && st.deviceId != [] && st.accessToken != [] && st.privateKey != []
    && exists device :: Delivers(api, calls, st.deviceId, st.accessToken, device) && SpeaksWireGuard(device)
  }

  lemma RefreshIff(api: Api, calls: seq<Call>, persisted: State)
    ensures Refresh(api, calls, persisted.(schemaVersion := 1)).state.Some? <==> Refreshes(api, calls, persisted)
  {
    hide Take;
    TakenIff(api, calls, persisted.deviceId, persisted.accessToken, persisted.privateKey, persisted.publicKey);
  }

  lemma NoneRegistered(api: Api, calls: seq<Call>, cfg: Config, st: State)
    ensures Registrations(ApplyLicense(api, calls, cfg, st).calls) == Registrations(calls)
  {
    hide NormalizeLicense;
    CountNext(calls, SetLicense(st.deviceId, st.accessToken, NormalizeLicense(cfg.license)));
  }

  lemma TakeRegistersNone(api: Api, calls: seq<Call>, id: Text, token: Text, secret: Text, shared: Text)
    ensures Registrations(Take(api, calls, id, token, secret, shared).calls) == Registrations(calls)
  {
    hide StateFromDevice, WIREGUARD;
    CountNext(calls, Enable(id, token));
    CountNext(calls + [Enable(id, token)], Fetch(id, token));
  }

  /**
   * A new device is registered, once, if and only if there is a key for it, the refresh does not succeed, and the
   * persisted state is not self-sufficient.
   */
  lemma RegistersIff(e: Env, calls: seq<Call>, cfg: Config, persisted: State)
    ensures var o := Ensure(e, calls, cfg, persisted);
            Registrations(o.calls) == Registrations(calls) +
              (if e.keys.Some? && !Refreshes(e.api, calls, persisted) && !SelfSufficient(persisted) then 1 else 0)
  {
    var current := persisted.(schemaVersion := 1);
    RefreshIff(e.api, calls, persisted);
    TakeRegistersNone(e.api, calls, current.deviceId, current.accessToken, current.privateKey, current.publicKey);
    ReusableIff(current);
    assert SelfSufficient(current) <==> SelfSufficient(persisted);
    var refreshed := Refresh(e.api, calls, current);
    hide Take, RegisterDevice, ApplyLicense, Registrations, IsReusable, SelfSufficient, Refreshes;
    if refreshed.state.Some? {
      NoneRegistered(e.api, refreshed.calls, cfg, refreshed.state.value);
    } else if IsReusable(current) {
      NoneRegistered(e.api, refreshed.calls, cfg, current);
    } else {
      RegisterOnce(e, refreshed.calls, cfg);
      var created := RegisterDevice(e, refreshed.calls, cfg);
      if created.state.Some? {
        NoneRegistered(e.api, created.calls, cfg, created.state.value);
      }
    }
  }

  lemma RegisterOnce(e: Env, calls: seq<Call>, cfg: Config)
    ensures Registrations(RegisterDevice(e, calls, cfg).calls)
            == Registrations(calls) + if e.keys.Some? then 1 else 0
  {
    if e.keys.Some? {
      var keys := e.keys.value;
      var registered := calls + [Register(keys.shared)];
      CountNext(calls, Register(keys.shared));
      var r := e.api.register(registered);
      if r.Some? {
        TakeRegistersNone(e.api, registered, r.value.id, r.value.token, keys.secret, keys.shared);
        var taken := Take(e.api, registered, r.value.id, r.value.token, keys.secret, keys.shared);
        if taken.state.Some? {
          var st := taken.state.value;
          CountNext(taken.calls, SetLicense(st.deviceId, st.accessToken, NormalizeLicense(cfg.license)));
        }
      }
      hide Take, NormalizeLicense, Registrations;
    }
  }

  // ---------- the licence ----------

  /** The configuration asks for a licence. */
  ghost predicate Wants(cfg: Config, license: Text) {
    Trimmed(cfg.license, license) && license != [] && license != Lit("unspecified")
  }

  lemma LicenseIff(cfg: Config, license: Text)
    ensures license != [] ==> (NormalizeLicense(cfg.license) == license <==> Wants(cfg, license))
    ensures NormalizeLicense(cfg.license) == [] <==> forall l :: !Wants(cfg, l)
  {
    hide TrimSpace, Trimmed;
    TrimSpaceIff(cfg.license, license);
    TrimSpaceIff(cfg.license, TrimSpace(cfg.license));
    UnspecifiedIsText();
    forall l | Wants(cfg, l)
      ensures NormalizeLicense(cfg.license) == l
    {
      TrimSpaceIff(cfg.license, l);
    }
    if NormalizeLicense(cfg.license) != [] {
      assert Wants(cfg, TrimSpace(cfg.license));
    }
  }

  /** The configuration asks for a licence that a state does not have. */
  ghost predicate Renews(cfg: Config, st: State, license: Text) {
    Wants(cfg, license) && license != st.license
  }

  /**
   * For any state: a licence is sent if and only if a new one is wanted for an identified device, and the state is lost
   * if and only if a new one is wanted and the device is not identified or the licence not accepted.
   */
  lemma LicenseStepIff(api: Api, calls: seq<Call>, cfg: Config, st: State, license: Text)
    ensures var o := ApplyLicense(api, calls, cfg, st);
            var sent := calls + [SetLicense(st.deviceId, st.accessToken, license)];
            var identified := st.deviceId != [] && st.accessToken != [];
            && (Renews(cfg, st, license) ==>
                  && o.calls == (if identified then sent else calls)
                  && o.state == (if identified && api.setLicense(sent) then Some(st.(license := license)) else None))
            && ((forall l :: !Renews(cfg, st, l)) ==> o == Outcome(calls, Some(st)))
  {
    hide NormalizeLicense, Wants;
    LicenseIff(cfg, license);
    LicenseIff(cfg, NormalizeLicense(cfg.license));
    if Wants(cfg, license) {
      NotEmpty(cfg, license);
    }
    if NormalizeLicense(cfg.license) !in {[], st.license} {
      assert Renews(cfg, st, NormalizeLicense(cfg.license));
    }
  }

  lemma NotEmpty(cfg: Config, license: Text)
    requires Wants(cfg, license)
    ensures license != []
  {
  }

  lemma UnspecifiedIsText()
    ensures Lit("unspecified") != []
  {
  }

  // ---------- every call ----------

  /** Who a device is asked about: the persisted device, or the one that the call before has registered. */
  ghost predicate Identified(e: Env, persisted: State, before: seq<Call>, start: nat, id: Text, token: Text) {
    if |before| <= start then id == persisted.deviceId && token == persisted.accessToken
    else before[|before| - 1].Register? && e.api.register(before) == Some(Registration(id, token))
  }

  /** What a new call other than for a licence is made with. */
  ghost predicate Early(e: Env, persisted: State, t: seq<Call>, start: nat, i: nat)
    requires i < |t|
  {
    match t[i]
    case Register(key) => e.keys.Some? && key == e.keys.value.shared
    case Enable(id, token) => id != [] && token != [] && Identified(e, persisted, t[..i], start, id, token)
    case Fetch(id, token) => start < i && t[i - 1] == Enable(id, token) && e.api.enable(t[..i])
    case SetLicense(_, _, _) => false
  }

  ghost predicate AllEarly(e: Env, persisted: State, t: seq<Call>, start: nat) {
    start <= |t| && forall i | start <= i < |t| :: Early(e, persisted, t, start, i)
  }

  /** A licence is sent last, as the configuration wants it, for the device that is then returned if it is accepted. */
  ghost predicate LicenseCall(e: Env, cfg: Config, o: Outcome, i: nat)
    requires i < |o.calls|
  {
    && i == |o.calls| - 1 && o.calls[i].SetLicense? && Wants(cfg, o.calls[i].license)
    && (o.state.Some? <==> e.api.setLicense(o.calls))
    && (o.state.Some? ==> o.state.value.deviceId == o.calls[i].id && o.state.value.accessToken == o.calls[i].token)
  }

  ghost predicate AllProper(e: Env, cfg: Config, persisted: State, o: Outcome, start: nat) {
    && start <= |o.calls|
    && forall i | start <= i < |o.calls| :: Early(e, persisted, o.calls, start, i) || LicenseCall(e, cfg, o, i)
  }

  lemma EarlyNext(e: Env, persisted: State, t: seq<Call>, start: nat, c: Call)
    requires AllEarly(e, persisted, t, start) && Early(e, persisted, t + [c], start, |t|)
    ensures AllEarly(e, persisted, t + [c], start)
  {
    EarlyPrefix(e, persisted, t, start, [c]);
  }

  lemma EarlyPrefix(e: Env, persisted: State, t: seq<Call>, start: nat, more: seq<Call>)
    requires AllEarly(e, persisted, t, start)
    ensures forall i | start <= i < |t| :: Early(e, persisted, t + more, start, i)
  {
    forall i | start <= i < |t|
      ensures Early(e, persisted, t + more, start, i)
    {
      assert (t + more)[..i] == t[..i] && (t + more)[i] == t[i];
      assert Early(e, persisted, t, start, i);
    }
  }

  lemma TakeIsEarly(
    e: Env, persisted: State, t: seq<Call>, start: nat, id: Text, token: Text, secret: Text, shared: Text)
    requires AllEarly(e, persisted, t, start) && id != [] && token != []
    requires Identified(e, persisted, t, start, id, token)
    ensures AllEarly(e, persisted, Take(e.api, t, id, token, secret, shared).calls, start)
  {
    hide StateFromDevice, WIREGUARD, Identified;
    var enabled := t + [Enable(id, token)];
    assert enabled[..|t|] == t;
    EarlyNext(e, persisted, t, start, Enable(id, token));
    var fetched := enabled + [Fetch(id, token)];
    assert fetched[..|enabled|] == enabled && fetched[|t|] == Enable(id, token);
    if e.api.enable(enabled) {
      EarlyNext(e, persisted, enabled, start, Fetch(id, token));
    }
  }

  lemma LicenseIsProper(e: Env, cfg: Config, persisted: State, t: seq<Call>, start: nat, st: State)
    requires AllEarly(e, persisted, t, start) && NormalizeLicense(cfg.license) != []
    ensures AllProper(e, cfg, persisted, SendLicense(e.api, t, st, NormalizeLicense(cfg.license)), start)
  {
    hide NormalizeLicense, Early;
    var license := NormalizeLicense(cfg.license);
    LicenseIff(cfg, license);
    EarlyPrefix(e, persisted, t, start, [SetLicense(st.deviceId, st.accessToken, license)]);
  }

  lemma RegisterIsProper(e: Env, cfg: Config, persisted: State, t: seq<Call>, start: nat)
    requires AllEarly(e, persisted, t, start)
    ensures var o := RegisterDevice(e, t, cfg);
            && AllProper(e, cfg, persisted, o, start)
            && (NormalizeLicense(cfg.license) == [] || o.state.None?
                || o.state.value.license == NormalizeLicense(cfg.license))
            && (NormalizeLicense(cfg.license) == [] ==> AllEarly(e, persisted, o.calls, start))
  {
    hide NormalizeLicense, Take;
    if e.keys.Some? {
      var keys := e.keys.value;
      var registered := t + [Register(keys.shared)];
      EarlyNext(e, persisted, t, start, Register(keys.shared));
      var r := e.api.register(registered);
      if r.Some? && r.value.id != [] && r.value.token != [] {
        TakeIsEarly(e, persisted, registered, start, r.value.id, r.value.token, keys.secret, keys.shared);
        var taken := Take(e.api, registered, r.value.id, r.value.token, keys.secret, keys.shared);
        if taken.state.Some? && NormalizeLicense(cfg.license) != [] {
          LicenseIsProper(e, cfg, persisted, taken.calls, start, taken.state.value);
        }
      }
    }
  }

  /**
   * Every call, for every behaviour of the API: a key is registered only if it was generated; a device is enabled
   * under the persisted credentials first, and else under those that the registration just before has answered; it is
   * fetched only when that has been accepted; and a licence is sent last.
   */
  lemma CallsAreProper(e: Env, calls: seq<Call>, cfg: Config, persisted: State)
    ensures AllProper(e, cfg, persisted, Ensure(e, calls, cfg, persisted), |calls|)
  {
    hide NormalizeLicense, Take, IsReusable, RegisterDevice, AllEarly, AllProper, SendLicense;
    var current := persisted.(schemaVersion := 1);
    var start := |calls|;
    NoneYet(e, persisted, calls);
    if HasCredentials(current) {
      TakeIsEarly(
        e, persisted, calls, start, current.deviceId, current.accessToken, current.privateKey, current.publicKey);
    }
    var refreshed := Refresh(e.api, calls, current);
    RegisterIsProper(e, cfg, persisted, refreshed.calls, start);
    var created := RegisterDevice(e, refreshed.calls, cfg);
    var kept := if refreshed.state.Some? then refreshed.state.value else current;
    SkippedIsProper(e, cfg, persisted, refreshed.calls, start, kept);
    if NormalizeLicense(cfg.license) != [] {
      LicenseIsProper(e, cfg, persisted, refreshed.calls, start, kept);
    }
  }

  lemma NoneYet(e: Env, persisted: State, calls: seq<Call>)
    ensures AllEarly(e, persisted, calls, |calls|)
    ensures Identified(e, persisted, calls, |calls|, persisted.deviceId, persisted.accessToken)
  {
  }

  lemma SkippedIsProper(e: Env, cfg: Config, persisted: State, t: seq<Call>, start: nat, st: State)
    requires AllEarly(e, persisted, t, start)
    ensures forall state :: AllProper(e, cfg, persisted, Outcome(t, state), start)
  {
    hide Early;
  }
}
