/** The router's network write: a whole-collection update that must change one service set only, and the
    readback check. Service sets are objects; the write works in place on a deep copy. */
module RouterControl {
  import opened Basics

  /** The authentication of a service set. Kinds the daemon does not write are opaque. */
  datatype Auth = NoAuth | Open | Wpa2(password: string) | Wpa3(password: string) | Wpa2Wpa3(password: string) | Other(kind: string)

  /** A requested or reported security mode. */
  datatype Mode = ModeOpen | ModeWpa2 | ModeWpa3 | ModeWpa2Wpa3 | ModeUnknown(name: string)

  /** A service set as a value; `other` stands for the fields no mutation names. */
  datatype Service = Service(ssid: string, band: string, hidden: bool, disabled: bool, auth: Auth, other: string)

  datatype Mutation = Mutation(
    ssid: string, band: string, newSsid: Option<string>, security: Option<Mode>, passphrase: Option<string>,
    hidden: Option<bool>, disabled: Option<bool>)

  datatype Error = Unsupported | CredentialsUnavailable

  datatype Result<T> = Ok(value: T) | Err(error: Error)

  // ---------------------------------------------------------------- single service sets

  predicate IsPsk(auth: Auth) { auth.Wpa2? || auth.Wpa3? || auth.Wpa2Wpa3? }

  function Password(auth: Auth): string { if IsPsk(auth) then auth.password else "" }

  function WithPassword(auth: Auth, password: string): Auth {
    if IsPsk(auth) then auth.(password := password) else auth
  }

  function ModeOf(auth: Auth): Mode {
    match auth
    case Open => ModeOpen
    case Wpa2(_) => ModeWpa2
    case Wpa3(_) => ModeWpa3
    case Wpa2Wpa3(_) => ModeWpa2Wpa3
    case _ => ModeUnknown("")
  }

  predicate Selected(s: Service, m: Mutation) { s.ssid == m.ssid && s.band == m.band }

  function Get<T>(o: Option<T>, default: T): T { if o.Some? then o.value else default }

  /** What a request asks of the credentials of its target: a PSK mode needs a password, and a passphrase
      alone needs a PSK target. */
  predicate AuthFits(auth: Auth, m: Mutation) {
    match m.security
    case Some(mode) => !mode.ModeUnknown? && (mode.ModeOpen? || Get(m.passphrase, Password(auth)) != "")
    case None => m.passphrase.None? || IsPsk(auth)
  }

  /** The target after an accepted mutation: each field the mutation names is as it asks, the password
      is the new one or else the one it had, and everything else is as it was. */
  predicate ChangedAsAsked(before: Service, after: Service, m: Mutation) {
    && after.ssid == Get(m.newSsid, before.ssid) && after.hidden == Get(m.hidden, before.hidden)
    && after.disabled == Get(m.disabled, before.disabled) && after.band == before.band && after.other == before.other
    && AuthAsAsked(before.auth, after.auth, m)
  }

  predicate AuthAsAsked(before: Auth, after: Auth, m: Mutation) {
    match m.security
    case Some(mode) =>
      && ModeOf(after) == mode
      && (IsPsk(after) ==> Password(after) == Get(m.passphrase, Password(before)) && Password(after) != "")
    case None => after == WithPassword(before, Get(m.passphrase, Password(before)))
  }

  predicate PasswordMissing(auth: Auth, m: Mutation) {
    m.security.Some? && !m.security.value.ModeOpen? && Get(m.passphrase, Password(auth)) == ""
  }

  lemma FittingPassword(auth: Auth, m: Mutation)
    ensures AuthFits(auth, m) ==> !PasswordMissing(auth, m)
  {
  }

  /** What a change leaves as the authentication, kind by kind: the kind asked for with the new password or else the
      one there was; without a kind, only the password of a PSK target changes. */
  lemma ChangedAuth(before: Auth, after: Auth, m: Mutation)
    requires AuthAsAsked(before, after, m) && AuthFits(before, m)
    ensures m.security == Some(ModeOpen) ==> after == Open
    ensures m.security == Some(ModeWpa2) ==> after == Wpa2(PasswordAsked(before, m))
    ensures m.security == Some(ModeWpa3) ==> after == Wpa3(PasswordAsked(before, m))
    ensures m.security == Some(ModeWpa2Wpa3) ==> after == Wpa2Wpa3(PasswordAsked(before, m))
    ensures m.security.None? && m.passphrase.None? ==> after == before
    ensures m.security.None? && before.Wpa2? ==> after == Wpa2(PasswordAsked(before, m))
    ensures m.security.None? && before.Wpa3? ==> after == Wpa3(PasswordAsked(before, m))
    ensures m.security.None? && before.Wpa2Wpa3? ==> after == Wpa2Wpa3(PasswordAsked(before, m))
  {
  }

  function PasswordAsked(before: Auth, m: Mutation): string {
    match m.passphrase
    case Some(password) => password
    case None =>
      match before
      case Wpa2(password) => password
      case Wpa3(password) => password
      case Wpa2Wpa3(password) => password
      case _ => ""
  }

  /** What can be asked of which target: a passphrase alone of a PSK set; no unknown mode; and a PSK mode when there
      will be a password. */
  lemma FitsMeans(auth: Auth, m: Mutation)
    ensures AuthFits(auth, m) <==>
            match m.security
            case None => m.passphrase.None? || auth.Wpa2? || auth.Wpa3? || auth.Wpa2Wpa3?
            case Some(ModeOpen) => true
            case Some(ModeUnknown(_)) => false
            case Some(_) => PasswordAsked(auth, m) != ""
  {
  }

  class Bss {
    var ssid: string
    var band: string
    var hidden: bool
    var disabled: bool
    var auth: Auth
    var other: string

    function Value(): Service
      reads this
    {
      Service(ssid, band, hidden, disabled, auth, other)
    }

    constructor (s: Service)
      ensures Value() == s
    {
      ssid, band, hidden, disabled, auth, other := s.ssid, s.band, s.hidden, s.disabled, s.auth, s.other;
    }

    method ChangeAuth(m: Mutation) returns (r: Option<Error>)
      modifies this`auth
      ensures r.None? <==> AuthFits(old(auth), m)
      ensures r.None? ==> AuthAsAsked(old(auth), auth, m)
      ensures r == Some(CredentialsUnavailable) <==> PasswordMissing(old(auth), m)
    {
      if m.security.Some? {
        var password := Password(auth);
        if m.passphrase.Some? {
          password := m.passphrase.value;
        }
        if !m.security.value.ModeOpen? && password == "" {
          return Some(CredentialsUnavailable);
        }
        match m.security.value
        case ModeOpen => auth := Open;
        case ModeWpa2 => auth := Wpa2(password);
        case ModeWpa3 => auth := Wpa3(password);
        case ModeWpa2Wpa3 => auth := Wpa2Wpa3(password);
        case ModeUnknown(_) => return Some(Unsupported);
      } else if m.passphrase.Some? {
        if !IsPsk(auth) {
          return Some(Unsupported);
        }
        auth := WithPassword(auth, m.passphrase.value);
      }
      r := None;
    }

    method Change(m: Mutation) returns (r: Option<Error>)
      modifies this
      ensures r.None? <==> AuthFits(old(auth), m)
      ensures r.None? ==> ChangedAsAsked(old(Value()), Value(), m)
      ensures r == Some(CredentialsUnavailable) <==> PasswordMissing(old(auth), m)
    {
      hide AuthFits, AuthAsAsked, PasswordMissing;
      if m.newSsid.Some? {
        ssid := m.newSsid.value;
      }
      if m.hidden.Some? {
        hidden := m.hidden.value;
      }
      if m.disabled.Some? {
        disabled := m.disabled.value;
      }
      r := ChangeAuth(m);
    }
  }

  // ---------------------------------------------------------------- the collection

  datatype Network = Network(domain: string, sets: seq<Bss>)

  datatype Config = Config(incarnation: int, networks: seq<Network>)

  /** All service sets in the order in which nested loops meet them. */
  function All(networks: seq<Network>): seq<Bss> {
    if networks == [] then [] else All(networks[..|networks| - 1]) + networks[|networks| - 1].sets
  }

  function Values(sets: seq<Bss>): (r: seq<Service>)
    reads sets
    ensures |r| == |sets|
  {
    seq(|sets|, i requires 0 <= i < |sets| reads sets => sets[i].Value())
  }

  /** Which network holds how many service sets. */
  function Shape(networks: seq<Network>): seq<(string, int)> {
    seq(|networks|, i requires 0 <= i < |networks| => (networks[i].domain, |networks[i].sets|))
  }

  predicate Distinct(sets: seq<Bss>) { forall i, j :: 0 <= i < j < |sets| ==> sets[i] != sets[j] }

  method CloneSets(sets: seq<Bss>) returns (r: seq<Bss>)
    ensures |r| == |sets| && Distinct(r) && fresh(r) && Values(r) == Values(sets)
  {
    r := [];
    for i := 0 to |sets|
      invariant |r| == i && Distinct(r) && fresh(r)
      invariant forall j :: 0 <= j < i ==> r[j].Value() == sets[j].Value()
    {
      var copy := new Bss(sets[i].Value());
      r := r + [copy];
    }
  }

  /** `proto.Clone`: new objects throughout. */
  method Clone(networks: seq<Network>) returns (r: seq<Network>)
    ensures Shape(r) == Shape(networks) && Distinct(All(r)) && fresh(All(r))
    ensures Values(All(r)) == old(Values(All(networks)))
  {
    forall i | 0 <= i < |networks|
      ensures Values(All(networks[..i + 1])) == Values(All(networks[..i])) + Values(networks[i].sets)
      ensures Shape(networks[..i + 1]) == Shape(networks[..i]) + [(networks[i].domain, |networks[i].sets|)]
    {
      assert networks[..i + 1] == networks[..i] + [networks[i]];
      NetworkSnoc(networks[..i], networks[i]);
    }
    r := [];
    assert Shape(r) == Shape(networks[..0]) && Distinct(All(r)) && Values(All(r)) == Values(All(networks[..0]));
    hide Shape, Distinct, All, Values;
    for i := 0 to |networks|
      invariant |r| == i && Shape(r) == Shape(networks[..i]) && Distinct(All(r)) && fresh(All(r))
      invariant Values(All(r)) == old(Values(All(networks[..i])))
    {
      ghost var before := All(r);
      ghost var values := Values(before);
      var sets := CloneSets(networks[i].sets);
      assert Values(before) == values;
      assert forall j, k :: 0 <= j < |before| && 0 <= k < |sets| ==> before[j] != sets[k];
      DistinctConcat(before, sets);
      NetworkSnoc(r, Network(networks[i].domain, sets));
      r := r + [Network(networks[i].domain, sets)];
    }
    assert networks[..|networks|] == networks;
  }

  lemma NetworkSnoc(networks: seq<Network>, n: Network)
    ensures All(networks + [n]) == All(networks) + n.sets
    ensures Values(All(networks + [n])) == Values(All(networks)) + Values(n.sets)
    ensures Shape(networks + [n]) == Shape(networks) + [(n.domain, |n.sets|)]
  {
    assert (networks + [n])[..|networks|] == networks;
    ValuesConcat(All(networks), n.sets);
  }

  lemma DistinctConcat(a: seq<Bss>, b: seq<Bss>)
    requires Distinct(a) && Distinct(b) && forall i, j :: 0 <= i < |a| && 0 <= j < |b| ==> a[i] != b[j]
    ensures Distinct(a + b)
  {
  }

  lemma ValuesConcat(a: seq<Bss>, b: seq<Bss>)
    ensures Values(a + b) == Values(a) + Values(b)
  {
  }

  // ---------------------------------------------------------------- when a mutation is accepted

  predicate OnlySelected(all: seq<Service>, m: Mutation, t: nat)
    requires t < |all|
  {
    Selected(all[t], m) && forall i :: 0 <= i < |all| && i != t ==> !Selected(all[i], m)
  }

  /** No other service set on the band already has the new name. */
  predicate NameFree(all: seq<Service>, m: Mutation, t: nat) {
    m.newSsid.Some? ==> forall i :: 0 <= i < |all| && i != t && all[i].band == m.band ==> all[i].ssid != m.newSsid.value
  }

  /** The credentials of all others were returned, so writing them back does not erase them. */
  predicate SiblingsKnown(all: seq<Service>, t: nat) {
    forall i :: 0 <= i < |all| && i != t && IsPsk(all[i].auth) ==> Password(all[i].auth) != ""
  }

  predicate Acceptable(all: seq<Service>, m: Mutation, t: nat)
    requires t < |all|
  {
    OnlySelected(all, m, t) && NameFree(all, m, t) && SiblingsKnown(all, t) && AuthFits(all[t].auth, m)
  }

  /** The collection after a write: the target is changed as asked and every other service set is identical. */
  predicate Written(before: seq<Service>, after: seq<Service>, m: Mutation, t: nat)
    requires t < |before|
  {
    && |after| == |before| && ChangedAsAsked(before[t], after[t], m)
    && forall i :: 0 <= i < |before| && i != t ==> after[i] == before[i]
  }

  method FindTarget(sets: seq<Bss>, m: Mutation) returns (target: Option<nat>)
    ensures target.Some? ==> target.value < |sets| && OnlySelected(Values(sets), m, target.value)
    ensures target.None? ==> forall t :: 0 <= t < |sets| ==> !OnlySelected(Values(sets), m, t)
  {
    var count := 0;
    var last := 0;
    for i := 0 to |sets|
      invariant count == 0 ==> forall j :: 0 <= j < i ==> !Selected(sets[j].Value(), m)
      invariant count >= 1 ==> last < i && Selected(sets[last].Value(), m)
      invariant count == 1 ==> forall j :: 0 <= j < i && j != last ==> !Selected(sets[j].Value(), m)
      invariant count >= 2 ==> exists j :: 0 <= j < last && Selected(sets[j].Value(), m)
      invariant count >= 0
    {
      if sets[i].ssid == m.ssid && sets[i].band == m.band {
        last, count := i, count + 1;
      }
    }
    if count != 1 {
      forall t | 0 <= t < |sets| ensures !OnlySelected(Values(sets), m, t) {
        if count >= 2 {
          var j :| 0 <= j < last && Selected(sets[j].Value(), m);
          assert Values(sets)[j] == sets[j].Value() && Values(sets)[last] == sets[last].Value();
        }
      }
      return None;
    }
    target := Some(last);
  }

  method NameIsFree(sets: seq<Bss>, m: Mutation, target: Bss, ghost t: nat) returns (free: bool)
    requires t < |sets| && sets[t] == target && Distinct(sets)
    ensures free == NameFree(Values(sets), m, t)
  {
    if m.newSsid.Some? {
      for i := 0 to |sets|
        invariant forall j :: 0 <= j < i && j != t && sets[j].band == m.band ==> sets[j].ssid != m.newSsid.value
      {
        if sets[i] != target && sets[i].band == m.band && sets[i].ssid == m.newSsid.value {
          assert Values(sets)[i] == sets[i].Value();
          return false;
        }
      }
    }
    free := true;
  }

  method SiblingsAreKnown(sets: seq<Bss>, target: Bss, ghost t: nat) returns (known: bool)
    requires t < |sets| && sets[t] == target && Distinct(sets)
    ensures known == SiblingsKnown(Values(sets), t)
  {
    for i := 0 to |sets|
      invariant forall j :: 0 <= j < i && j != t && IsPsk(sets[j].auth) ==> Password(sets[j].auth) != ""
    {
      if sets[i] != target && Password(sets[i].auth) == "" && IsPsk(sets[i].auth) {
        assert Values(sets)[i] == sets[i].Value();
        return false;
      }
    }
    known := true;
  }

  /** Accepted exactly when there is one target, its new name is free, no sibling's credentials are missing and
      its own fit. The request is a copy: what was read from the router is not touched. */
  method BuildNetworkSetConfig(current: Config, m: Mutation) returns (r: Result<Config>)
    ensures r.Ok? <==> Accepted(Values(All(current.networks)), m)
    ensures r.Ok? ==> r.value.incarnation == current.incarnation && Shape(r.value.networks) == Shape(current.networks)
                      && fresh(All(r.value.networks))
    ensures r == Err(CredentialsUnavailable) <==> CredentialsLacking(Values(All(current.networks)), m)
    ensures r.Ok? ==> AcceptedAs(Values(All(current.networks)), Values(All(r.value.networks)), m)
  {
    hide SiblingsKnown, NameFree, AuthFits, ChangedAsAsked, PasswordMissing, Shape, OnlySelected, Written, All;
    ghost var before := Values(All(current.networks));
    var networks := Clone(current.networks);
    var sets := All(networks);
    assert Values(sets) == before;
    var found := FindTarget(sets, m);
    assert Values(sets) == before;
    if found.None? {
      assert forall t :: 0 <= t < |before| ==> !OnlySelected(before, m, t);
      return Err(Unsupported);
    }
    var target := sets[found.value];
    ghost var t := found.value;
    TargetDecides(before, m, t);
    var free := NameIsFree(sets, m, target, t);
    if !free {
      return Err(Unsupported);
    }
    assert Values(sets) == before;
    var known := SiblingsAreKnown(sets, target, t);
    if !known {
      return Err(CredentialsUnavailable);
    }
    assert Values(sets) == before;
    assert before[t] == target.Value();
    FittingPassword(before[t].auth, m);
    assert forall i :: 0 <= i < |before| ==> sets[i].Value() == before[i];
    var failed := target.Change(m);
    if failed.Some? {
      return Err(failed.value);
    }
    assert Acceptable(before, m, t);
    OnlyTargetWritten(sets, before, m, t);
    r := Ok(Config(current.incarnation, networks));
  }

  lemma OnlyTargetWritten(sets: seq<Bss>, before: seq<Service>, m: Mutation, t: nat)
    requires |sets| == |before| && t < |before| && ChangedAsAsked(before[t], sets[t].Value(), m)
    requires forall i :: 0 <= i < |before| && i != t ==> sets[i].Value() == before[i]
    ensures Written(before, Values(sets), m, t)
  {
    hide ChangedAsAsked;
  }

  ghost predicate Accepted(all: seq<Service>, m: Mutation) { exists t :: 0 <= t < |all| && Acceptable(all, m, t) }

  ghost predicate AcceptedAs(before: seq<Service>, after: seq<Service>, m: Mutation) {
    exists t :: 0 <= t < |before| && Acceptable(before, m, t) && Written(before, after, m, t)
  }

  /** The target is clear, but a sibling's password or one the target needs is missing. */
  ghost predicate CredentialsLacking(all: seq<Service>, m: Mutation) { exists t :: 0 <= t < |all| && LacksCredentials(all, m, t) }

  predicate LacksCredentials(all: seq<Service>, m: Mutation, t: nat)
    requires t < |all|
  {
    OnlySelected(all, m, t) && NameFree(all, m, t) && (!SiblingsKnown(all, t) || PasswordMissing(all[t].auth, m))
  }

  lemma TargetDecides(all: seq<Service>, m: Mutation, t: nat)
    requires t < |all| && OnlySelected(all, m, t)
    ensures Accepted(all, m) <==> Acceptable(all, m, t)
    ensures CredentialsLacking(all, m) <==> LacksCredentials(all, m, t)
  {
    forall u | 0 <= u < |all| && u != t ensures !Acceptable(all, m, u) && !LacksCredentials(all, m, u) {
      assert !Selected(all[u], m);
    }
  }

  // ---------------------------------------------------------------- the readback

  /** The service sets a readback looks at: those with the old or the new name on the band. */
  predicate Relevant(s: Service, m: Mutation) {
    s.band == m.band && (s.ssid == m.ssid || (m.newSsid.Some? && s.ssid == m.newSsid.value))
  }

  predicate Confirms(s: Service, m: Mutation) {
    && (m.newSsid.Some? ==> s.ssid == m.newSsid.value) && (m.hidden.Some? ==> s.hidden == m.hidden.value)
    && (m.disabled.Some? ==> s.disabled == m.disabled.value)
    && (m.security.Some? ==> ModeOf(s.auth) == m.security.value)
  }

  predicate FirstRelevant(all: seq<Service>, m: Mutation, t: nat)
    requires t < |all|
  {
    Relevant(all[t], m) && forall i :: 0 <= i < t ==> !Relevant(all[i], m)
  }

  /** Accepts exactly when the first relevant service set confirms everything that was asked. */
  method NetworkMatches(config: Option<Config>, m: Mutation) returns (ok: bool)
    ensures ok <==> config.Some? && var all := Values(All(config.value.networks));
                      exists t :: 0 <= t < |all| && FirstRelevant(all, m, t) && Confirms(all[t], m)
  {
    if config.None? {
      return false;
    }
    var sets := All(config.value.networks);
    ghost var all := Values(sets);
    for i := 0 to |sets|
      invariant forall j :: 0 <= j < i ==> !Relevant(all[j], m)
    {
      var s := sets[i].Value();
      assert s == all[i];
      if s.ssid != m.ssid && (m.newSsid.None? || s.ssid != m.newSsid.value) {
        continue;
      }
      if s.band != m.band {
        continue;
      }
      assert FirstRelevant(all, m, i);
      if (m.newSsid.Some? && s.ssid != m.newSsid.value) || (m.hidden.Some? && s.hidden != m.hidden.value)
         || (m.disabled.Some? && s.disabled != m.disabled.value)
         || (m.security.Some? && ModeOf(s.auth) != m.security.value) {
        return false;
      }
      assert Confirms(all[i], m);
      return true;
    }
    ok := false;
  }

  /** The networks an accepted mutation writes are accepted on readback. */
  lemma WrittenIsConfirmed(before: seq<Service>, after: seq<Service>, m: Mutation, t: nat)
    requires t < |before| && Acceptable(before, m, t) && Written(before, after, m, t)
    ensures FirstRelevant(after, m, t) && Confirms(after[t], m)
    ensures forall i :: 0 <= i < |after| && i != t ==> !Relevant(after[i], m)
  {
    forall i | 0 <= i < |after| && i != t ensures !Relevant(after[i], m) {
      assert after[i] == before[i] && !Selected(before[i], m);
    }
  }

  /** A fitting mutation of a clear target is refused exactly when writing it would leave a second set that a
      readback takes for the target, or write another set's missing password back as empty. */
  lemma RefusedExactly(before: seq<Service>, after: seq<Service>, m: Mutation, t: nat)
    requires t < |before| && OnlySelected(before, m, t) && AuthFits(before[t].auth, m) && Written(before, after, m, t)
    ensures !Acceptable(before, m, t)
       <==> exists i :: 0 <= i < |after| && i != t && (Relevant(after[i], m) || (IsPsk(after[i].auth) && Password(after[i].auth) == ""))
  {
    hide ChangedAsAsked, AuthFits;
    forall i | 0 <= i < |before| && i != t ensures after[i] == before[i] && !Selected(before[i], m) {
    }
  }

  /** A confirmed readback holds a service set on the band with the final name, flags and security. */
  lemma ConfirmedHasFinal(all: seq<Service>, m: Mutation, t: nat)
    requires t < |all| && FirstRelevant(all, m, t) && Confirms(all[t], m)
    ensures exists i :: 0 <= i < |all| && all[i].band == m.band && all[i].ssid == Get(m.newSsid, m.ssid)
              && all[i].hidden == Get(m.hidden, all[i].hidden) && all[i].disabled == Get(m.disabled, all[i].disabled)
              && ModeOf(all[i].auth) == Get(m.security, ModeOf(all[i].auth))
  {
    assert all[t].ssid == Get(m.newSsid, m.ssid);
  }

  /** An empty password can only be written to the target itself, and only when no security is asked and the
      password it is to have is empty. */
  lemma NoPasswordErased(before: seq<Service>, after: seq<Service>, m: Mutation, t: nat, i: nat)
    requires t < |before| && i < |before| && Acceptable(before, m, t) && Written(before, after, m, t)
    ensures IsPsk(after[i].auth) && Password(after[i].auth) == ""
            ==> i == t && m.security.None? && Get(m.passphrase, Password(before[t].auth)) == ""
  {
  }
}
