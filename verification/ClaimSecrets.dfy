/** Backend claims and the secrets they refer to, under the commands of cli/resources/backend.go and
    cli/resources/cert.go. Every kubectl call may fail, and the command may be stopped before any call;
    an operation that is proved for every outcome of its calls is thereby proved at each of its
    intermediate states. One namespace is modelled. */
module ClaimSecrets {
  import opened Basics

  datatype Claim = Claim(account: string, cert: Option<string>)

  /** What becomes of a call: it works, it fails without effect, it works but its answer is lost and
      it counts as failed, or the command is stopped before it. */
  datatype Outcome = Works | Fails | AnswerLost | Stopped

  datatype Reply = Success | NotFound | Failure | Aborted

  function Refs(claim: Claim): set<string> {
    {claim.account} + (if claim.cert.Some? then {claim.cert.value} else {})
  }

  /** Every secret that a claim refers to exists, and no two references are to the same secret. */
  ghost predicate SoundRefs(claims: map<string, Claim>, secrets: set<string>) {
    && (forall c :: c in claims ==> Refs(claims[c]) <= secrets)
    && (forall c :: c in claims ==> claims[c].cert != Some(claims[c].account))
    && (forall c, d :: c in claims && d in claims && c != d ==> Refs(claims[c]) !! Refs(claims[d]))
  }

  /** A secret that does not exist yet can be created and referred to. */
  lemma NewReference(claims: map<string, Claim>, secrets: set<string>, name: string, claim: Claim, secret: string)
    requires SoundRefs(claims, secrets) && secret !in secrets && name in claims
    requires claim == claims[name].(account := secret) || claim == claims[name].(cert := Some(secret))
    ensures SoundRefs(claims[name := claim], secrets + {secret})
  {
    assert Refs(claim) <= Refs(claims[name]) + {secret};
  }

  /** Giving up the reference to a secret leaves the references sound, with or without that secret. */
  lemma DroppedReference(claims: map<string, Claim>, secrets: set<string>, name: string, claim: Claim, gone: string)
    requires SoundRefs(claims, secrets) && name in claims && gone in Refs(claims[name])
    requires Refs(claim) <= Refs(claims[name]) - {gone} && claim.cert != Some(claim.account)
    ensures SoundRefs(claims[name := claim], secrets) && SoundRefs(claims[name := claim], secrets - {gone})
  {
  }

  /** A secret that no claim refers to can go. */
  lemma Unreferenced(claims: map<string, Claim>, secrets: set<string>, secret: string)
    requires SoundRefs(claims, secrets)
    requires forall c :: c in claims ==> secret !in Refs(claims[c])
    ensures SoundRefs(claims, secrets + {secret}) && SoundRefs(claims, secrets - {secret})
  {
  }

  lemma Cleared(claims: map<string, Claim>, secrets: set<string>, name: string)
    requires SoundRefs(claims, secrets) && NotReferred(claims, name)
    ensures SoundRefs(claims - {name}, secrets - {name}) && SoundRefs(claims - {name}, secrets - {name} + {name})
  {
  }

  function Configured(claims: map<string, Claim>, name: string): map<string, Claim> {
    (claims - {name})[name := Claim(name, None)]
  }

  /** The states that configuring a backend goes through: nothing done, the old resources gone, the
      secret there, the claim there. */
  ghost predicate Stage(claims: map<string, Claim>, secrets: set<string>, claims': map<string, Claim>,
                        secrets': set<string>, name: string)
  {
    || (claims' == claims && secrets' == secrets)
    || (claims' == claims - {name} && (secrets' == secrets - {name} || secrets' == secrets - {name} + {name}))
    || (claims' == Configured(claims, name) && secrets' == secrets - {name} + {name})
  }

  lemma StagesSound(claims: map<string, Claim>, secrets: set<string>, claims': map<string, Claim>,
                    secrets': set<string>, name: string)
    requires SoundRefs(claims, secrets) && Stage(claims, secrets, claims', secrets', name)
    ensures SoundRefs(claims', secrets') <==>
              NotReferred(claims, name) || (name in secrets' && claims' != Configured(claims, name))
  {
    if NotReferred(claims, name) {
      Cleared(claims, secrets, name);
      NameTaken(claims, secrets, name);
    } else {
      var c :| c in claims && c != name && name in Refs(claims[c]);
      assert c in claims' && name in Refs(claims'[c]);
      if claims' == Configured(claims, name) {
        assert name in claims' && name in Refs(claims'[c]) * Refs(claims'[name]);
      } else if name in secrets' {
        assert claims' == claims || claims' == claims - {name};
        assert secrets' == secrets;
      }
    }
  }

  /** Configuring a backend under a name that another claim refers to leaves two references to one secret. */
  lemma NameTaken(claims: map<string, Claim>, secrets: set<string>, name: string)
    requires SoundRefs(claims, secrets)
    ensures SoundRefs(Configured(claims, name), secrets - {name} + {name}) <==> NotReferred(claims, name)
  {
    var after := Configured(claims, name);
    if c :| c in claims && c != name && name in Refs(claims[c]) {
      assert c in after && name in after && name in Refs(after[c]) * Refs(after[name]);
    }
  }

  /** No claim but `name` itself refers to the secret of that name. */
  predicate NotReferred(claims: map<string, Claim>, name: string) {
    forall c :: c in claims && c != name ==> name !in Refs(claims[c])
  }

  predicate TakesEffect(o: Outcome) { o == Works || o == AnswerLost }

  /** The calls of an operation, numbered in the order of its text. */
  type Outcomes = nat -> Outcome

  ghost predicate NoAnswerLost(outcomes: Outcomes) { forall k :: outcomes(k) != AnswerLost }

  ghost predicate AllWork(outcomes: Outcomes) { forall k :: outcomes(k) == Works }

  // ----- what each command comes to, by the outcomes of its calls

  /** The call was made and counts as failed. */
  predicate Fell(o: Outcome) { o == Fails || o == AnswerLost }

  /** The new secret of the update was created, and its answer came back. */
  predicate Rotates(claims: map<string, Claim>, secrets: set<string>, name: string, secret: string, o: Outcomes) {
    name in claims && o(0) == Works && o(1) == Works && o(2) == Works && secret !in secrets
  }

  /** Once the new secret is there: the claims, the secrets and the reply. */
  function ClaimsSwitched(claims: map<string, Claim>, name: string, secret: string, o: Outcomes): map<string, Claim>
    requires name in claims
  {
    if o(3) == Works || (o(3) == AnswerLost && !TakesEffect(o(4))) then claims[name := claims[name].(account := secret)]
    else claims
  }

  function SecretsSwitched(secrets: set<string>, was: string, secret: string, o: Outcomes): set<string> {
    if o(3) == Works then if TakesEffect(o(6)) then secrets - {was} else secrets
    else if Fell(o(3)) && o(4) != Stopped && TakesEffect(o(5)) then secrets - {secret} else secrets
  }

  function ReplyToSwitch(o: Outcomes): Reply {
    if o(3) == Stopped || (o(3) == Works && o(6) == Stopped) || (Fell(o(3)) && Stopped in {o(4), o(5)}) then Aborted
    else if o(3) == Works then Success else Failure
  }

  function ClaimsAfterUpdate(claims: map<string, Claim>, secrets: set<string>, name: string, secret: string, o: Outcomes)
    : map<string, Claim>
  {
    if Rotates(claims, secrets, name, secret, o) then ClaimsSwitched(claims, name, secret, o) else claims
  }

  function SecretsAfterUpdate(claims: map<string, Claim>, secrets: set<string>, name: string, secret: string, o: Outcomes)
    : set<string>
  {
    var created := name in claims && o(0) == Works && o(1) == Works && TakesEffect(o(2));
    if Rotates(claims, secrets, name, secret, o) then SecretsSwitched(secrets + {secret}, claims[name].account, secret, o)
    else if created then secrets + {secret} else secrets
  }

  function ReplyToUpdate(claims: map<string, Claim>, secrets: set<string>, name: string, secret: string, o: Outcomes): Reply {
    if o(0) == Stopped then Aborted
    else if o(0) != Works then Failure
    else if name !in claims then NotFound
    else if o(1) == Stopped || (o(1) == Works && o(2) == Stopped) then Aborted
    else if Rotates(claims, secrets, name, secret, o) then ReplyToSwitch(o) else Failure
  }

  predicate AddsCert(claims: map<string, Claim>, secrets: set<string>, name: string, secret: string, o: Outcomes) {
    name in claims && claims[name].cert.None? && o(0) == Works && o(1) == Works && secret !in secrets
  }

  function ClaimsWithCert(claims: map<string, Claim>, secrets: set<string>, name: string, secret: string, o: Outcomes)
    : map<string, Claim>
  {
    if AddsCert(claims, secrets, name, secret, o) && TakesEffect(o(2))
    then claims[name := claims[name].(cert := Some(secret))] else claims
  }

  function SecretsWithCert(claims: map<string, Claim>, secrets: set<string>, name: string, secret: string, o: Outcomes)
    : set<string>
  {
    var created := name in claims && claims[name].cert.None? && o(0) == Works && TakesEffect(o(1));
    secrets + (if created then {secret} else {})
    - (if AddsCert(claims, secrets, name, secret, o) && Fell(o(2)) && TakesEffect(o(3)) then {secret} else {})
  }

  function ReplyToCert(claims: map<string, Claim>, secrets: set<string>, name: string, secret: string, o: Outcomes): Reply {
    if o(0) == Stopped then Aborted
    else if o(0) != Works then Failure
    else if name !in claims then NotFound
    else if claims[name].cert.None? && o(1) == Stopped then Aborted
    else if !AddsCert(claims, secrets, name, secret, o) then Failure
    else if o(2) == Stopped || (Fell(o(2)) && o(3) == Stopped) then Aborted
    else if o(2) == Works then Success else Failure
  }

  function ReplyToCertRemoval(claims: map<string, Claim>, name: string, o: Outcomes): Reply {
    if o(0) == Stopped then Aborted
    else if o(0) != Works then Failure
    else if name !in claims then NotFound
    else if claims[name].cert.None? then Success
    else if o(1) == Stopped || (o(1) == Works && (o(2) == Stopped || (o(2) == Works && o(3) == Stopped))) then Aborted
    else if o(1) == Works && o(2) == Works && o(3) == Works then Success else Failure
  }

  function ReplyToRemoval(claims: map<string, Claim>, name: string, o: Outcomes): Reply {
    if o(0) == Stopped then Aborted
    else if o(0) != Works then Failure
    else if name !in claims then NotFound
    else if o(1) == Stopped then Aborted
    else if o(1) == Works then Success else Failure
  }

  /** Configuring a backend: what the creating calls come to, and the whole. */
  function ReplyToCreation(o: Outcomes): Reply {
    if o(1) == Stopped || (o(1) == Works && (o(2) == Stopped || (o(2) == Works && o(3) == Stopped))) then Aborted
    else if o(1) == Works && o(2) == Works && o(3) == Works then Success else Failure
  }

  function ReplyToConfigure(o: Outcomes): Reply {
    if o(0) == Stopped || (o(0) == Works && ReplyToCreation(o) == Aborted) then Aborted
    else if o(0) == Works && ReplyToCreation(o) == Success then Success
    else if o(4) == Stopped then Aborted else Failure
  }

  /** The claims and the secrets together. */
  datatype Store = Store(claims: map<string, Claim>, secrets: set<string>)

  function AfterConfigure(st: Store, name: string, o: Outcomes): Store {
    var cleared := if TakesEffect(o(0)) then Store(st.claims - {name}, st.secrets - {name}) else st;
    var creating := o(0) == Works && o(1) == Works;
    var made := Store(
      if creating && o(2) == Works && TakesEffect(o(3)) then cleared.claims[name := Claim(name, None)] else cleared.claims,
      if creating && TakesEffect(o(2)) then cleared.secrets + {name} else cleared.secrets);
    if (Fell(o(0)) || (o(0) == Works && ReplyToCreation(o) == Failure)) && TakesEffect(o(4))
    then Store(made.claims - {name}, made.secrets - {name}) else made
  }

  function AfterCertRemoval(st: Store, name: string, o: Outcomes): Store {
    if name in st.claims && st.claims[name].cert.Some? && o(0) == Works && TakesEffect(o(1))
    then Store(st.claims[name := st.claims[name].(cert := None)],
               if o(1) == Works && o(2) == Works && TakesEffect(o(3)) then st.secrets - {st.claims[name].cert.value}
               else st.secrets)
    else st
  }

  function AfterRemoval(st: Store, name: string, o: Outcomes): Store {
    if name in st.claims && o(0) == Works && TakesEffect(o(1))
    then Store(st.claims - {name}, st.secrets - Refs(st.claims[name])) else st
  }

  datatype Command =
    | Rotate(name: string, secret: string)
    | AddCert(name: string, secret: string)
    | RemoveCert(name: string)
    | Remove(name: string)
    | Configure(name: string)

  function After(st: Store, command: Command, o: Outcomes): Store {
    match command
    case Rotate(name, secret) =>
      Store(ClaimsAfterUpdate(st.claims, st.secrets, name, secret, o), SecretsAfterUpdate(st.claims, st.secrets, name, secret, o))
    case AddCert(name, secret) =>
      Store(ClaimsWithCert(st.claims, st.secrets, name, secret, o), SecretsWithCert(st.claims, st.secrets, name, secret, o))
    case RemoveCert(name) => AfterCertRemoval(st, name, o)
    case Remove(name) => AfterRemoval(st, name, o)
    case Configure(name) => AfterConfigure(st, name, o)
  }

  /** After the first `n` commands; `outcomes(i, k)` is the outcome of the k-th call of the i-th command. */
  function AfterAll(st: Store, commands: seq<Command>, outcomes: (nat, nat) -> Outcome, n: nat): Store
    requires n <= |commands|
  {
    if n == 0 then st
    else After(AfterAll(st, commands, outcomes, n - 1), commands[n - 1], (k: nat) => outcomes(n - 1, k))
  }

  /** The i-th command does not configure a backend under a name that the secret of another claim bears. */
  predicate IsFree(st: Store, commands: seq<Command>, outcomes: (nat, nat) -> Outcome, i: nat)
    requires i < |commands|
  {
    commands[i].Configure? ==> NotReferred(AfterAll(st, commands, outcomes, i).claims, commands[i].name)
  }

  class Cluster {
    var claims: map<string, Claim>
    var secrets: set<string>

    ghost predicate Sound()
      reads this
    {
      SoundRefs(claims, secrets)
    }

    constructor ()
      ensures claims == map[] && secrets == {} && Sound()
    {
      claims, secrets := map[], {};
    }

    // ----- kubectl

    /** `kubectl create` of a secret: refused if the name is taken. */
    method CreateSecret(name: string, o: Outcome) returns (ok: bool)
      modifies this`secrets
      ensures secrets == if TakesEffect(o) then old(secrets) + {name} else old(secrets)
      ensures ok <==> o == Works && name !in old(secrets)
    {
      ok := o == Works && name !in secrets;
      if TakesEffect(o) { secrets := secrets + {name}; }
    }

    /** `kubectl apply` of a claim. */
    method ApplyClaim(name: string, claim: Claim, o: Outcome) returns (ok: bool)
      modifies this`claims
      ensures claims == if TakesEffect(o) then old(claims)[name := claim] else old(claims)
      ensures ok <==> o == Works
    {
      ok := o == Works;
      if TakesEffect(o) { claims := claims[name := claim]; }
    }

    /** `kubectl delete --ignore-not-found` of a secret. */
    method DeleteSecret(name: string, o: Outcome) returns (ok: bool)
      modifies this`secrets
      ensures secrets == if TakesEffect(o) then old(secrets) - {name} else old(secrets)
      ensures ok <==> o == Works
    {
      ok := o == Works;
      if TakesEffect(o) { secrets := secrets - {name}; }
    }

    // ----- the commands

    /** `Backend.Update`: rotate the account secret of a claim. Calls: 0 read the claim, 1 read the
        account and the old secret, 2 create the new secret, 3 apply the new claim, and then 4 apply
        the old claim again and 5 delete the new secret if that failed, or 6 delete the old secret. */
    method UpdateBackend(name: string, secret: string, outcomes: Outcomes) returns (r: Reply)
      requires Sound()
      modifies this
      ensures claims == ClaimsAfterUpdate(old(claims), old(secrets), name, secret, outcomes)
      ensures secrets == SecretsAfterUpdate(old(claims), old(secrets), name, secret, outcomes)
      ensures r == ReplyToUpdate(old(claims), old(secrets), name, secret, outcomes)
      ensures claims.Keys == old(claims.Keys)
      ensures Sound() <==> !old(UpdateDangles(name, secret, outcomes))
      ensures r == Success ==> name in claims && claims[name].account == secret
      ensures r == Success && outcomes(6) == Works ==> secrets == old(secrets) - {old(claims[name].account)} + {secret}
      ensures r == Failure && NoAnswerLost(outcomes) ==> claims == old(claims)
      ensures r == Failure && NoAnswerLost(outcomes) && outcomes(5) == Works ==> secrets == old(secrets)
      ensures r == NotFound ==> name !in claims && claims == old(claims) && secrets == old(secrets)
      ensures AllWork(outcomes) && old(name in claims && secret !in secrets) ==> r == Success
    {
      if outcomes(0) == Stopped { return Aborted; }
      if outcomes(0) != Works { return Failure; }
      if name !in claims { return NotFound; }
      if outcomes(1) == Stopped { return Aborted; }
      if outcomes(1) != Works { return Failure; }
      if outcomes(2) == Stopped { return Aborted; }
      var ok := CreateSecret(secret, outcomes(2));
      if !ok { return Failure; }
      Unreferenced(claims, old(secrets), secret);
      r := SwitchAccount(name, secret, outcomes);
      assert outcomes(5) == Works ==> old(secrets) + {secret} - {secret} == old(secrets);
    }

    /** The part of `Backend.Update` after the new secret exists. */
    method SwitchAccount(name: string, secret: string, outcomes: Outcomes) returns (r: Reply)
      requires Sound() && name in claims && SoundRefs(claims, secrets - {secret}) && secret in secrets
      modifies this
      ensures claims == ClaimsSwitched(old(claims), name, secret, outcomes)
      ensures secrets == SecretsSwitched(old(secrets), old(claims[name].account), secret, outcomes)
      ensures r == ReplyToSwitch(outcomes)
      ensures Sound() <==> !(outcomes(3) == AnswerLost && outcomes(4) == Fails && TakesEffect(outcomes(5)))
      ensures r == Success ==> claims[name].account == secret
      ensures r == Success && outcomes(6) == Works ==> secrets == old(secrets) - {old(claims[name].account)}
      ensures r == Failure && NoAnswerLost(outcomes) ==> claims == old(claims)
      ensures r == Failure && outcomes(5) == Works ==> secrets == old(secrets) - {secret}
    {
      var was := claims[name];
      var changed := was.(account := secret);
      NewReference(claims, secrets - {secret}, name, changed, secret);
      assert secrets - {secret} + {secret} == secrets;
      if outcomes(3) == Stopped { return Aborted; }
      var ok := ApplyClaim(name, changed, outcomes(3));
      if !ok {
        if outcomes(4) == Stopped { return Aborted; }
        ok := ApplyClaim(name, was, outcomes(4));
        assert claims == if outcomes(3) == AnswerLost && outcomes(4) == Fails then old(claims)[name := changed]
                         else old(claims);
        if outcomes(5) == Stopped { return Aborted; }
        ok := DeleteSecret(secret, outcomes(5));
        if outcomes(3) == AnswerLost && outcomes(4) == Fails && TakesEffect(outcomes(5)) {
          assert secret in Refs(claims[name]) && secret !in secrets;
        }
        return Failure;
      }
      if outcomes(6) == Stopped { return Aborted; }
      Unreferenced(claims, secrets, was.account);
      ok := DeleteSecret(was.account, outcomes(6));
      return Success;
    }

    /** The one way that rotating a secret leaves a claim without its secret: the new claim is stored
        although that call seemed to fail, restoring the old claim fails, and the new secret is deleted. */
    ghost predicate UpdateDangles(name: string, secret: string, outcomes: Outcomes)
      reads this
    {
      && name in claims && secret !in secrets
      && outcomes(0) == Works && outcomes(1) == Works && outcomes(2) == Works
      && outcomes(3) == AnswerLost && outcomes(4) == Fails && TakesEffect(outcomes(5))
    }

    /** `Cert.Create`. Calls: 0 read the claim, 1 create the secret, 2 apply the claim, 3 delete the
        secret if that failed. */
    method CreateCert(name: string, secret: string, outcomes: Outcomes) returns (r: Reply)
      requires Sound()
      modifies this
      ensures claims == ClaimsWithCert(old(claims), old(secrets), name, secret, outcomes)
      ensures secrets == SecretsWithCert(old(claims), old(secrets), name, secret, outcomes)
      ensures r == ReplyToCert(old(claims), old(secrets), name, secret, outcomes)
      ensures claims.Keys == old(claims.Keys)
      ensures Sound() <==> !old(CertDangles(name, secret, outcomes))
      ensures r == Success ==> name in claims && claims[name].cert == Some(secret) && secrets == old(secrets) + {secret}
      ensures r == Failure && NoAnswerLost(outcomes) ==> claims == old(claims)
      ensures r == Failure && NoAnswerLost(outcomes) && outcomes(3) == Works ==> secrets == old(secrets)
      ensures old(name in claims && claims[name].cert.Some?) ==> claims == old(claims) && secrets == old(secrets)
      ensures AllWork(outcomes) && old(name in claims && claims[name].cert.None? && secret !in secrets) ==> r == Success
    {
      if outcomes(0) == Stopped { return Aborted; }
      if outcomes(0) != Works { return Failure; }
      if name !in claims { return NotFound; }
      var was := claims[name];
      if was.cert.Some? { return Failure; }
      if outcomes(1) == Stopped { return Aborted; }
      var ok := CreateSecret(secret, outcomes(1));
      if !ok { return Failure; }
      Unreferenced(claims, old(secrets), secret);
      NewReference(claims, old(secrets), name, was.(cert := Some(secret)), secret);
      if outcomes(2) == Stopped { return Aborted; }
      ok := ApplyClaim(name, was.(cert := Some(secret)), outcomes(2));
      if !ok {
        if outcomes(3) == Stopped { return Aborted; }
        ok := DeleteSecret(secret, outcomes(3));
        assert old(secrets) + {secret} - {secret} == old(secrets);
        assert secret in Refs(was.(cert := Some(secret)));
        return Failure;
      }
      return Success;
    }

    /** Here nothing restores the old claim. */
    ghost predicate CertDangles(name: string, secret: string, outcomes: Outcomes)
      reads this
    {
      && name in claims && claims[name].cert.None? && secret !in secrets
      && outcomes(0) == Works && outcomes(1) == Works
      && outcomes(2) == AnswerLost && TakesEffect(outcomes(3))
    }

    /** `Cert.Delete`. Calls: 0 read the claim, 1 apply the claim, 2 read the secret, 3 delete it. */
    method DeleteCert(name: string, outcomes: Outcomes) returns (r: Reply)
      requires Sound()
      modifies this
      ensures claims.Keys == old(claims.Keys) && r == ReplyToCertRemoval(old(claims), name, outcomes)
      ensures Store(claims, secrets) == AfterCertRemoval(old(Store(claims, secrets)), name, outcomes)
      ensures Sound()
      ensures r == Success ==> name in claims && claims[name].cert.None?
      ensures AllWork(outcomes) && old(name in claims) ==> r == Success
      ensures r == Success && old(claims[name].cert.Some?) ==> secrets == old(secrets) - {old(claims[name].cert.value)}
    {
      if outcomes(0) == Stopped { return Aborted; }
      if outcomes(0) != Works { return Failure; }
      if name !in claims { return NotFound; }
      var was := claims[name];
      if was.cert.None? { return Success; }
      if outcomes(1) == Stopped { return Aborted; }
      DroppedReference(claims, secrets, name, was.(cert := None), was.cert.value);
      var ok := ApplyClaim(name, was.(cert := None), outcomes(1));
      if !ok { return Failure; }
      if outcomes(2) == Stopped { return Aborted; }
      if outcomes(2) != Works { return Failure; }
      if outcomes(3) == Stopped { return Aborted; }
      ok := DeleteSecret(was.cert.value, outcomes(3));
      return if ok then Success else Failure;
    }

    /** `deleteSbcReferenceResources`: one call deletes the claim of that name and the secrets that
        `claim` names, whatever claim is stored. */
    method DeleteReferences(name: string, claim: Claim, o: Outcome) returns (ok: bool)
      modifies this
      ensures claims == if TakesEffect(o) then old(claims) - {name} else old(claims)
      ensures secrets == if TakesEffect(o) then old(secrets) - Refs(claim) else old(secrets)
      ensures ok <==> o == Works
    {
      ok := o == Works;
      if TakesEffect(o) {
        claims, secrets := claims - {name}, secrets - Refs(claim);
      }
    }

    /** `Backend.Delete` for one claim. Calls: 0 read the claim, 1 delete. */
    method DeleteBackend(name: string, outcomes: Outcomes) returns (r: Reply)
      requires Sound()
      modifies this
      ensures Sound()
      ensures r == ReplyToRemoval(old(claims), name, outcomes)
      ensures Store(claims, secrets) == AfterRemoval(old(Store(claims, secrets)), name, outcomes)
      ensures forall c :: c in claims ==> c in old(claims) && claims[c] == old(claims[c])
      ensures r == Success ==>
                && name in old(claims) && claims == old(claims) - {name}
                && secrets == old(secrets) - Refs(old(claims[name]))
      ensures AllWork(outcomes) && old(name in claims) ==> r == Success
    {
      if outcomes(0) == Stopped { return Aborted; }
      if outcomes(0) != Works { return Failure; }
      if name !in claims { return NotFound; }
      if outcomes(1) == Stopped { return Aborted; }
      var ok := DeleteReferences(name, claims[name], outcomes(1));
      return if ok then Success else Failure;
    }

    /** `ConfigOneBackend`: first and, after a failure, last, it deletes the claim and the secret that
        bear the name of the backend. Calls: 0 delete, 1 create the config map, 2 create the secret,
        3 create the claim, 4 delete after a failure. It keeps the references sound in every outcome
        if no other claim refers to a secret of that name. If one does, the references are sound only
        in outcomes that leave a secret of that name and do not store the claim. */
    method ConfigureBackend(name: string, outcomes: Outcomes) returns (r: Reply)
      requires Sound()
      modifies this
      ensures Sound() <==>
                NotReferred(old(claims), name) || (name in secrets && claims != Configured(old(claims), name))
      ensures r == Success ==> claims == Configured(old(claims), name)
      ensures r == ReplyToConfigure(outcomes)
      ensures Store(claims, secrets) == AfterConfigure(old(Store(claims, secrets)), name, outcomes)
      ensures AllWork(outcomes) ==> r == Success
      ensures Stage(old(claims), old(secrets), claims, secrets, name)
      ensures r == Failure && TakesEffect(outcomes(4)) ==> name !in claims && name !in secrets
    {
      r := ConfigureInStages(name, outcomes);
      StagesSound(old(claims), old(secrets), claims, secrets, name);
    }

    /** `ConfigOneBackend`, call by call. */
    method ConfigureInStages(name: string, outcomes: Outcomes) returns (r: Reply)
      modifies this
      ensures Stage(old(claims), old(secrets), claims, secrets, name)
      ensures r == Success ==> claims == Configured(old(claims), name) && secrets == old(secrets) - {name} + {name}
      ensures r == ReplyToConfigure(outcomes)
      ensures Store(claims, secrets) == AfterConfigure(old(Store(claims, secrets)), name, outcomes)
      ensures AllWork(outcomes) ==> r == Success
      ensures r == Failure && TakesEffect(outcomes(4)) ==> name !in claims && name !in secrets
    {
      if outcomes(0) == Stopped { return Aborted; }
      var ok := DeleteReferences(name, Claim(name, None), outcomes(0));
      if ok {
        r := CreateResources(name, outcomes);
        if r != Failure { return; }
      }
      if outcomes(4) == Stopped { return Aborted; }
      ok := DeleteReferences(name, Claim(name, None), outcomes(4));
      assert Configured(old(claims), name) - {name} == old(claims) - {name};
      assert old(secrets) - {name} + {name} - {name} == old(secrets) - {name};
      return Failure;
    }

    /** The part of `ConfigOneBackend` that creates things. */
    method CreateResources(name: string, outcomes: Outcomes) returns (r: Reply)
      requires name !in claims && name !in secrets
      modifies this
      ensures r == Success ==> claims == old(claims)[name := Claim(name, None)] && secrets == old(secrets) + {name}
      ensures r != Success ==>
                || (claims == old(claims) && (secrets == old(secrets) || secrets == old(secrets) + {name}))
                || (claims == old(claims)[name := Claim(name, None)] && secrets == old(secrets) + {name})
      ensures r == ReplyToCreation(outcomes)
      ensures claims == if outcomes(1) == Works && outcomes(2) == Works && TakesEffect(outcomes(3))
                        then old(claims)[name := Claim(name, None)] else old(claims)
      ensures secrets == if outcomes(1) == Works && TakesEffect(outcomes(2)) then old(secrets) + {name} else old(secrets)
    {
      if outcomes(1) == Stopped { return Aborted; }
      if outcomes(1) != Works { return Failure; }
      if outcomes(2) == Stopped { return Aborted; }
      var ok := CreateSecret(name, outcomes(2));
      if !ok { return Failure; }
      if outcomes(3) == Stopped { return Aborted; }
      ok := ApplyClaim(name, Claim(name, None), outcomes(3));
      return if ok then Success else Failure;
    }

    // ----- any sequence of commands

    /** Any sequence of commands, each cut short or failing anywhere: the claims and secrets come to what the
        commands come to one after the other; and as long as no answer is lost, and backends are configured
        under names that no other claim's secret bears, every claim refers to secrets that exist and are its
        own. Claims appear by being configured only. */
    method Run(commands: seq<Command>, outcomes: (nat, nat) -> Outcome)
      requires Sound()
      requires forall i, k :: outcomes(i, k) != AnswerLost
      requires forall i :: 0 <= i < |commands| ==> IsFree(Store(claims, secrets), commands, outcomes, i)
      modifies this
      ensures Store(claims, secrets) == AfterAll(old(Store(claims, secrets)), commands, outcomes, |commands|)
      ensures Sound()
      ensures forall c :: c in claims ==> c in old(claims) || Configure(c) in commands
    {
      ghost var start := Store(claims, secrets);
      for i := 0 to |commands|
        invariant Sound() && Store(claims, secrets) == AfterAll(start, commands, outcomes, i)
        invariant forall c :: c in claims ==> c in start.claims || Configure(c) in commands
      {
        assert IsFree(start, commands, outcomes, i) && commands[i] in commands;
        Execute(commands[i], (k: nat) => outcomes(i, k));
      }
    }

    /** One command. */
    method Execute(command: Command, outcomes: Outcomes)
      requires Sound() && NoAnswerLost(outcomes)
      requires command.Configure? ==> NotReferred(claims, command.name)
      modifies this
      ensures Sound() && Store(claims, secrets) == After(old(Store(claims, secrets)), command, outcomes)
      ensures forall c :: c in claims ==> c in old(claims) || command == Configure(c)
    {
      var reply: Reply;
      match command {
        case Rotate(name, secret) => reply := UpdateBackend(name, secret, outcomes);
        case AddCert(name, secret) => reply := CreateCert(name, secret, outcomes);
        case RemoveCert(name) => reply := DeleteCert(name, outcomes);
        case Remove(name) => reply := DeleteBackend(name, outcomes);
        case Configure(name) => reply := ConfigureBackend(name, outcomes);
      }
    }
  }
}
