/** The pure side of the U2F steps: the application identity, challenges, the requests sent to
    the browser, and the first-match scan over a user's devices. The U2F cryptography itself
    (challenge verification, registration, signature checks) is a capability passed in. */
module SecondFactor {
  import opened Wrappers
  import opened Records

  /** The parts of the broker's root URL that matter here. */
  datatype URL = URL(scheme: string, host: string, path: string, rawQuery: string)

  /** `u2fAppID`: the origin of the root URL, `scheme://host`. */
  function AppID(root: URL): (id: string)
    ensures |id| == |root.scheme| + 3 + |root.host|
    ensures id[..|root.scheme|] == root.scheme && id[|root.scheme|..|root.scheme| + 3] == "://"
    ensures id[|root.scheme| + 3..] == root.host
  {
    root.scheme + "://" + root.host
  }

  /** The path and query of the root URL do not affect the application identity. */
  lemma AppIDIgnoresPathAndQuery(root: URL, path: string, rawQuery: string)
    ensures AppID(root.(path := path, rawQuery := rawQuery)) == AppID(root)
  {
  }

  /** `u2f.NewChallenge(appID, trustedFacets)` given the random bytes it reads, or None when
      the random source fails. */
  function NewChallenge(appID: string, trustedFacets: seq<string>, random: Option<seq<Byte>>): (c: Option<Challenge>)
    ensures c.Some? <==> random.Some?
    ensures c.Some? ==> c.value.appID == appID && c.value.trustedFacets == trustedFacets && c.value.nonce == random.value
  {
    match random
    case None => None
    case Some(nonce) => Some(Challenge(nonce, appID, trustedFacets))
  }

  /** The browser's answer to a sign request and to a register request (opaque JSON). */
  datatype SignResponse = SignResponse(keyHandle: string, signatureData: string, clientData: string)
  datatype RegisterResponse = RegisterResponse(registrationData: string, clientData: string)

  /** What the sign and register pages hand to the browser-side U2F API. */
  datatype SignRequest = SignRequest(challenge: Challenge, registeredKeys: seq<Registration>)
  datatype RegisterRequest = RegisterRequest(challenge: Challenge, registeredKeys: seq<Registration>)

  /** The U2F library and the JSON decoding of the browser's answers. */
  datatype U2FLibrary = U2FLibrary(
    parseSignResponse: string -> Option<SignResponse>,
    /** `Registration.Authenticate`: the device's new counter, or None when it does not verify. */
    authenticate: (Registration, SignResponse, Challenge, uint32) -> Option<uint32>,
    parseRegisterResponse: string -> Option<RegisterResponse>,
    /** `u2f.Register` with attestation verification skipped. */
    register: (RegisterResponse, Challenge) -> Option<Registration>)

  /** The device that verified and the counter the verifier returned for it. */
  datatype Hit = Hit(index: nat, counter: uint32)

  /** The first device, in storage order, that verifies the response. */
  function FirstVerifying(devices: seq<U2FDevice>, lib: U2FLibrary, resp: SignResponse, ch: Challenge): (r: Option<Hit>)
    ensures r.Some? ==>
      && r.value.index < |devices|
      && lib.authenticate(devices[r.value.index].registration, resp, ch, devices[r.value.index].counter) == Some(r.value.counter)
      && forall j :: 0 <= j < r.value.index ==> lib.authenticate(devices[j].registration, resp, ch, devices[j].counter).None?
    ensures r.None? ==> forall j :: 0 <= j < |devices| ==> lib.authenticate(devices[j].registration, resp, ch, devices[j].counter).None?
  {
    if |devices| == 0 then None
    else match lib.authenticate(devices[0].registration, resp, ch, devices[0].counter)
      case Some(n) => Some(Hit(0, n))
      case None =>
        match FirstVerifying(devices[1..], lib, resp, ch)
        case None => None
        case Some(h) => Some(Hit(h.index + 1, h.counter))
  }

  /** The loop of `handleU2FSigned`: devices are tried in storage order until one verifies;
      later devices are not tried. */
  method ScanDevices(devices: seq<U2FDevice>, lib: U2FLibrary, resp: SignResponse, ch: Challenge) returns (hit: Option<Hit>)
    ensures hit == FirstVerifying(devices, lib, resp, ch)
  {
    var i := 0;
    while i < |devices|
      invariant 0 <= i <= |devices|
      invariant forall j :: 0 <= j < i ==> lib.authenticate(devices[j].registration, resp, ch, devices[j].counter).None?
    {
      var newCounter := lib.authenticate(devices[i].registration, resp, ch, devices[i].counter);
      if newCounter.Some? {
        return Some(Hit(i, newCounter.value));
      }
      i := i + 1;
    }
    return None;
  }

  /** The devices after a successful sign-in with device `k`: only its counter changes. */
  function WithCounter(devices: seq<U2FDevice>, k: nat, counter: uint32): (ds: seq<U2FDevice>)
    requires k < |devices|
    ensures |ds| == |devices| && ds[k].counter == counter
    ensures forall j :: 0 <= j < |ds| ==> ds[j].registration == devices[j].registration
    ensures forall j :: 0 <= j < |ds| && j != k ==> ds[j] == devices[j]
  {
    devices[k := devices[k].(counter := counter)]
  }

  /** Updating a counter leaves the registrations offered to the browser as they were. */
  lemma WithCounterKeepsRegistrations(devices: seq<U2FDevice>, k: nat, counter: uint32)
    requires k < |devices|
    ensures RegistrationsOf(WithCounter(devices, k, counter)) == RegistrationsOf(devices)
  {
    RegistrationsIgnoreCounters(WithCounter(devices, k, counter), devices);
  }

  /** The devices after a registration: the new one is appended with counter 0. */
  function WithRegistered(devices: seq<U2FDevice>, reg: Registration): (ds: seq<U2FDevice>)
    ensures |ds| == |devices| + 1 && ds[..|devices|] == devices
    ensures ds[|devices|] == U2FDevice(reg, 0)
  {
    devices + [U2FDevice(reg, 0)]
  }

  /** Registering a device appends its registration to the registrations, at the end. */
  lemma {:induction false} RegisteredAppendsRegistration(devices: seq<U2FDevice>, reg: Registration)
    ensures RegistrationsOf(WithRegistered(devices, reg)) == RegistrationsOf(devices) + [reg]
  {
    var ds := WithRegistered(devices, reg);
    assert ds[..|ds| - 1] == devices;
  }
}
