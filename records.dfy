/** The persistent records of the broker: sessions, users and their second-factor devices. */
module Records {
  import opened Wrappers
  import Base64Url

  type Byte = Base64Url.Byte

  /** Go's `uint32`, the width of a device's usage counter. */
  newtype uint32 = x: int | 0 <= x < 0x1_0000_0000

  /** Go's `url.Values`: each key maps to the list of its values, in order. */
  type Query = map<string, seq<string>>

  /** `url.Values.Get`: the first value of `key`, or "" when there is none. */
  function QueryGet(q: Query, key: string): string
  {
    if key in q && |q[key]| > 0 then q[key][0] else ""
  }

  /** A registered hardware-key credential; its cryptographic content is opaque here. */
  datatype Registration = Registration(keyHandle: seq<Byte>, publicKey: seq<Byte>)

  /** A U2F challenge: a random nonce bound to an application identity and its trusted facets. */
  datatype Challenge = Challenge(nonce: seq<Byte>, appID: string, trustedFacets: seq<string>)

  /** A registered device and its usage counter (anti-replay). */
  datatype U2FDevice = U2FDevice(registration: Registration, counter: uint32)

  /** The login state carried by the `session` cookie. */
  datatype Session = Session(
    id: string,
    userID: string,                     // "" until the identity-provider step completes
    params: Query,                      // the query of the request that started the session
    u2f: bool,                          // second factor verified
    oauth2State: string,                // anti-forgery value, "" once used
    u2fChallenge: Option<Challenge>)    // None is Go's nil *u2f.Challenge

  datatype User = User(id: string, roles: seq<string>, u2fDevices: seq<U2FDevice>, admin: bool)

  /** `User.U2FRegistrations`: the registration of every device, in storage order
      (built by appending in a loop over the devices). */
  function RegistrationsOf(devices: seq<U2FDevice>): (regs: seq<Registration>)
    ensures |regs| == |devices|
    ensures forall i :: 0 <= i < |devices| ==> regs[i] == devices[i].registration
  {
    if |devices| == 0 then []
    else RegistrationsOf(devices[..|devices| - 1]) + [devices[|devices| - 1].registration]
  }

  /** Counters play no part in the registrations: device lists that differ only in their
      counters give the same registrations. */
  lemma RegistrationsIgnoreCounters(ds: seq<U2FDevice>, es: seq<U2FDevice>)
    requires |ds| == |es|
    requires forall i :: 0 <= i < |ds| ==> ds[i].registration == es[i].registration
    ensures RegistrationsOf(ds) == RegistrationsOf(es)
  {
  }
}
