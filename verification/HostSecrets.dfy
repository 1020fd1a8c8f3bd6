/** Host information kept in Kubernetes secrets (connector/host/host_helper.go): any number of
    nodes run `SaveToSecret` at the same time, which creates the secret if it is absent and then
    gets, changes and updates it, again on a conflict. The API server rejects an update whose
    resource version is stale. Every server call is one step; calls may fail, and an answer may
    be lost after the call took effect. */
module HostSecrets {
  import opened Basics

  const UNIFIED_NAME := "huawei-csi-host-info"
  const PROVISIONER_KEY := "secret-provisioner"
  const PROVISIONER_VALUE := "csi.huawei.com"

  /** The attempts of `retry.DefaultRetry`. */
  const RETRY_STEPS := 5

  datatype NodeHostInfo = NodeHostInfo(
    hostName: string, hostIPs: seq<string>, iscsiInitiator: string, fcInitiators: seq<string>, nvmeInitiator: string)

  /** What JSON keeps of it: the host name is not marshalled. */
  function Marshal(info: NodeHostInfo): NodeHostInfo { info.(hostName := "") }

  /** `version` stands for the resource version: every accepted update raises it. */
  datatype Secret = Secret(version: nat, data: map<string, NodeHostInfo>, labels: map<string, string>)

  const FreshSecret := Secret(0, map[], map[PROVISIONER_KEY := PROVISIONER_VALUE])

  type Server = map<string, Secret>

  /** One secret for all hosts, or one per host. */
  datatype Layout = Unified | PerNode

  function SecretName(layout: Layout, host: string): string {
    match layout
    case Unified => UNIFIED_NAME
    case PerNode => host
  }

  /** `addDataToSecret`. */
  function WithData(s: Secret, host: string, data: NodeHostInfo): Secret {
    s.(data := s.data[host := data], labels := s.labels[PROVISIONER_KEY := PROVISIONER_VALUE])
  }

  /** `GetFromSecret`. */
  function GetFromSecret(layout: Layout, server: Server, host: string): Result<NodeHostInfo> {
    var name := SecretName(layout, host);
    if name in server && host in server[name].data then Ok(server[name].data[host]) else Err
  }

  // ----- one call of SaveToSecret

  datatype Pc =
    | Checking
    | Creating
    | Getting(tries: nat)
    | Updating(tries: nat, copy: Secret)
    | Saved
    | GaveUp       // every attempt met a conflict
    | Failed       // a server call failed

  datatype Saver = Saver(host: string, info: NodeHostInfo, pc: Pc)

  datatype Cluster = Cluster(server: Server, savers: seq<Saver>)

  /** How the server call of a step ends: normally, with an error and no effect, or with its
      effect but with the answer lost. */
  datatype Reply = Served | Refused | Lost

  function NameOf(layout: Layout, s: Saver): string { SecretName(layout, s.host) }

  /** The step is an update that the server accepts. */
  predicate Lands(layout: Layout, c: Cluster, i: nat, reply: Reply)
    requires i < |c.savers|
  {
    var s := c.savers[i];
    && s.pc.Updating? && !reply.Refused?
    && NameOf(layout, s) in c.server && c.server[NameOf(layout, s)].version == s.pc.copy.version
  }

  function NextPc(layout: Layout, c: Cluster, i: nat, reply: Reply): Pc
    requires i < |c.savers|
  {
    var s := c.savers[i];
    var name := NameOf(layout, s);
    match s.pc
    case Checking =>
      if !reply.Served? then Failed else if name in c.server then Getting(0) else Creating
    case Creating =>
      if reply.Served? then Getting(0) else Failed
    case Getting(tries) =>
      if reply.Served? && name in c.server then Updating(tries, c.server[name]) else Failed
    case Updating(tries, copy) =>
      if Lands(layout, c, i, reply) then if reply.Served? then Saved else Failed
      else if !reply.Served? || name !in c.server then Failed
      else if tries + 1 < RETRY_STEPS then Getting(tries + 1) else GaveUp
    case _ => s.pc
  }

  function NextServer(layout: Layout, c: Cluster, i: nat, reply: Reply): Server
    requires i < |c.savers|
  {
    var s := c.savers[i];
    var name := NameOf(layout, s);
    if s.pc.Creating? && !reply.Refused? && name !in c.server then c.server[name := FreshSecret]
    else if Lands(layout, c, i, reply)
    then c.server[name := WithData(s.pc.copy, s.host, Marshal(s.info)).(version := s.pc.copy.version + 1)]
    else c.server
  }

  function Next(layout: Layout, c: Cluster, i: nat, reply: Reply): Cluster
    requires i < |c.savers|
  {
    Cluster(NextServer(layout, c, i, reply), c.savers[i := c.savers[i].(pc := NextPc(layout, c, i, reply))])
  }

  // ----- the invariant

  /** A copy is never newer than the secret, and one that is not stale is the secret as it stands. */
  ghost predicate SaverInv(layout: Layout, server: Server, s: Saver) {
    var name := NameOf(layout, s);
    match s.pc
    case Getting(tries) => name in server && tries < RETRY_STEPS
    case Updating(tries, copy) =>
      && name in server && copy.version <= server[name].version && tries < RETRY_STEPS
      && (copy.version == server[name].version ==> copy == server[name])
    case _ => true
  }

  ghost predicate Inv(layout: Layout, c: Cluster) {
    forall k :: 0 <= k < |c.savers| ==> SaverInv(layout, c.server, c.savers[k])
  }

  lemma NextKeepsInv(layout: Layout, c: Cluster, i: nat, reply: Reply)
    requires Inv(layout, c) && i < |c.savers|
    ensures Inv(layout, Next(layout, c, i, reply))
  {
    var c' := Next(layout, c, i, reply);
    assert SaverInv(layout, c.server, c.savers[i]);
    forall k | 0 <= k < |c'.savers| ensures SaverInv(layout, c'.server, c'.savers[k]) {
      assert SaverInv(layout, c.server, c.savers[k]);
    }
  }

  // ----- one map from host names to information

  /** The abstract store that both layouts implement. */
  ghost function View(layout: Layout, server: Server): imap<string, NodeHostInfo> {
    imap host | GetFromSecret(layout, server, host).Ok? :: GetFromSecret(layout, server, host).value
  }

  /** In either layout a step is a put of the saver's own entry, when its update lands, and
      otherwise leaves the map as it is: no save changes or erases another host's entry. */
  lemma StepRefinesMap(layout: Layout, c: Cluster, i: nat, reply: Reply)
    requires Inv(layout, c) && i < |c.savers|
    ensures var s, view, view' := c.savers[i], View(layout, c.server), View(layout, Next(layout, c, i, reply).server);
            view' == if Lands(layout, c, i, reply) then view[s.host := Marshal(s.info)] else view
  {
    var s := c.savers[i];
    var server' := Next(layout, c, i, reply).server;
    assert SaverInv(layout, c.server, s);
    forall host
      ensures GetFromSecret(layout, server', host)
              == if Lands(layout, c, i, reply) && host == s.host then Ok(Marshal(s.info))
                 else GetFromSecret(layout, c.server, host)
    {
    }
  }

  /** A step keeps every secret, with every label it had, the provisioner label aside. */
  lemma UpdateKeepsLabels(layout: Layout, c: Cluster, i: nat, reply: Reply, name: string)
    requires Inv(layout, c) && i < |c.savers| && name in c.server
    ensures var after := Next(layout, c, i, reply).server;
            && name in after
            && (forall k :: k in c.server[name].labels && k != PROVISIONER_KEY ==>
                  k in after[name].labels && after[name].labels[k] == c.server[name].labels[k])
  {
    assert SaverInv(layout, c.server, c.savers[i]);
  }

  /** A secret that a step creates or changes is the one common to all hosts or the saver's own, by the
      layout, and has the provisioner label. */
  lemma TouchedSecretIsLabelled(layout: Layout, c: Cluster, i: nat, reply: Reply, name: string)
    requires Inv(layout, c) && i < |c.savers|
    ensures var after := Next(layout, c, i, reply).server;
            name in after && !(name in c.server && after[name] == c.server[name]) ==>
              && name == (if layout.Unified? then "huawei-csi-host-info" else c.savers[i].host)
              && "secret-provisioner" in after[name].labels && after[name].labels["secret-provisioner"] == "csi.huawei.com"
  {
    assert SaverInv(layout, c.server, c.savers[i]);
  }

  // ----- whole runs

  /** A schedule: which saver makes the k-th server call, and how it is answered. */
  datatype Call = Call(saver: nat, reply: Reply)

  ghost predicate StepAt(layout: Layout, cs: seq<Cluster>, calls: seq<Call>, k: nat)
    requires k < |calls| && |cs| == |calls| + 1
  {
    calls[k].saver < |cs[k].savers| && cs[k + 1] == Next(layout, cs[k], calls[k].saver, calls[k].reply)
  }

  ghost predicate IsRun(layout: Layout, cs: seq<Cluster>, calls: seq<Call>) {
    && |cs| == |calls| + 1
    && (forall k :: 0 <= k < |cs[0].savers| ==> cs[0].savers[k].pc.Checking?)
    && forall k :: 0 <= k < |calls| ==> StepAt(layout, cs, calls, k)
  }

  lemma {:induction false} RunKeepsInv(layout: Layout, cs: seq<Cluster>, calls: seq<Call>, n: nat)
    requires IsRun(layout, cs, calls) && n < |cs|
    ensures Inv(layout, cs[n]) && |cs[n].savers| == |cs[0].savers|
    ensures forall k :: 0 <= k < |cs[n].savers| ==>
              cs[n].savers[k].host == cs[0].savers[k].host && cs[n].savers[k].info == cs[0].savers[k].info
  {
    if n > 0 {
      RunKeepsInv(layout, cs, calls, n - 1);
      assert StepAt(layout, cs, calls, n - 1);
      NextKeepsInv(layout, cs[n - 1], calls[n - 1].saver, calls[n - 1].reply);
    }
  }

  /** No save ever loses a label of a secret: at every later point of a run the secret is there with all the
      labels it had, the provisioner label aside, which saves set. */
  lemma {:induction false} LabelsAreKept(layout: Layout, cs: seq<Cluster>, calls: seq<Call>, m: nat, n: nat, name: string, k: string)
    requires IsRun(layout, cs, calls) && m <= n < |cs|
    requires name in cs[m].server && k in cs[m].server[name].labels && k != PROVISIONER_KEY
    ensures name in cs[n].server && k in cs[n].server[name].labels
    ensures cs[n].server[name].labels[k] == cs[m].server[name].labels[k]
  {
    if m < n {
      LabelsAreKept(layout, cs, calls, m, n - 1, name, k);
      RunKeepsInv(layout, cs, calls, n - 1);
      assert StepAt(layout, cs, calls, n - 1);
      UpdateKeepsLabels(layout, cs[n - 1], calls[n - 1].saver, calls[n - 1].reply, name);
    }
  }

  /** The k-th call is an update of `host`'s entry that lands. */
  ghost predicate PutsAt(layout: Layout, cs: seq<Cluster>, calls: seq<Call>, k: nat, host: string)
    requires k < |calls| && |cs| == |calls| + 1
  {
    && calls[k].saver < |cs[k].savers| && cs[k].savers[calls[k].saver].host == host
    && Lands(layout, cs[k], calls[k].saver, calls[k].reply)
  }

  lemma {:induction false} EntryStays(layout: Layout, cs: seq<Cluster>, calls: seq<Call>, m: nat, n: nat, host: string)
    requires IsRun(layout, cs, calls) && m <= n < |cs|
    requires forall k :: m <= k < n ==> !PutsAt(layout, cs, calls, k, host)
    ensures GetFromSecret(layout, cs[n].server, host) == GetFromSecret(layout, cs[m].server, host)
  {
    if m < n {
      EntryStays(layout, cs, calls, m, n - 1, host);
      RunKeepsInv(layout, cs, calls, n - 1);
      assert StepAt(layout, cs, calls, n - 1);
      assert !PutsAt(layout, cs, calls, n - 1, host);
      StepRefinesMap(layout, cs[n - 1], calls[n - 1].saver, calls[n - 1].reply);
      assert host in View(layout, cs[n].server) <==> host in View(layout, cs[n - 1].server);
    }
  }

  /** The step that makes a save succeed is an update of its own entry that lands. */
  lemma SuccessMeansLanded(layout: Layout, cs: seq<Cluster>, calls: seq<Call>, k: nat, i: nat)
    requires IsRun(layout, cs, calls) && k < |calls| && i < |cs[k].savers| && i < |cs[k + 1].savers|
    requires !cs[k].savers[i].pc.Saved? && cs[k + 1].savers[i].pc.Saved?
    ensures calls[k].saver == i && PutsAt(layout, cs, calls, k, cs[k].savers[i].host)
    ensures GetFromSecret(layout, cs[k + 1].server, cs[k].savers[i].host) == Ok(Marshal(cs[k].savers[i].info))
  {
    assert StepAt(layout, cs, calls, k);
  }

  /** Once a save has reported success, reading the host's information gives what was saved,
      with a blank host name, for as long as no other save of the same host lands; what other
      hosts save meanwhile makes no difference. */
  lemma SavedEntryIsRead(layout: Layout, cs: seq<Cluster>, calls: seq<Call>, m: nat, n: nat, i: nat)
    requires IsRun(layout, cs, calls) && m < n < |cs| && i < |cs[0].savers|
    requires |cs[m].savers| == |cs[m + 1].savers| == |cs[0].savers|
    requires !cs[m].savers[i].pc.Saved? && cs[m + 1].savers[i].pc.Saved?
    requires forall k :: m < k < n ==> !PutsAt(layout, cs, calls, k, cs[0].savers[i].host)
    ensures GetFromSecret(layout, cs[n].server, cs[0].savers[i].host) == Ok(cs[0].savers[i].info.(hostName := ""))
  {
    RunKeepsInv(layout, cs, calls, m);
    SuccessMeansLanded(layout, cs, calls, m, i);
    EntryStays(layout, cs, calls, m + 1, n, cs[0].savers[i].host);
  }

  // ----- what a conflict costs

  predicate Retrying(s: Saver) { s.pc.Getting? || s.pc.Updating? }

  /** A call of saver `j` is an update that lands on saver i's secret while saver `i` is retrying. */
  ghost predicate OtherLands(layout: Layout, c: Cluster, j: nat, reply: Reply, i: nat) {
    && i < |c.savers| && j < |c.savers| && j != i && Retrying(c.savers[i])
    && Lands(layout, c, j, reply) && NameOf(layout, c.savers[j]) == NameOf(layout, c.savers[i])
  }

  ghost function OthersLanded(layout: Layout, cs: seq<Cluster>, calls: seq<Call>, n: nat, i: nat): nat
    requires n <= |calls| && |cs| == |calls| + 1
  {
    if n == 0 then 0
    else OthersLanded(layout, cs, calls, n - 1, i) + Bit(OtherLands(layout, cs[n - 1], calls[n - 1].saver, calls[n - 1].reply, i))
  }

  /** Every conflict that saver `i` has met, and every version that its copy is behind, is an update of
      somebody else. */
  ghost predicate PaidFor(layout: Layout, server: Server, s: Saver, landed: nat) {
    var name := NameOf(layout, s);
    match s.pc
    case Getting(tries) => tries <= landed
    case Updating(tries, copy) => name in server && tries + server[name].version - copy.version <= landed
    case GaveUp => RETRY_STEPS <= landed
    case _ => true
  }

  lemma StepIsPaidFor(layout: Layout, c: Cluster, j: nat, reply: Reply, i: nat, landed: nat)
    requires Inv(layout, c) && i < |c.savers| && j < |c.savers| && PaidFor(layout, c.server, c.savers[i], landed)
    ensures var after := Next(layout, c, j, reply);
            PaidFor(layout, after.server, after.savers[i], landed + Bit(OtherLands(layout, c, j, reply, i)))
  {
    assert SaverInv(layout, c.server, c.savers[i]);
    assert SaverInv(layout, c.server, c.savers[j]);
  }

  lemma {:induction false} RunIsPaidFor(layout: Layout, cs: seq<Cluster>, calls: seq<Call>, n: nat, i: nat)
    requires IsRun(layout, cs, calls) && n < |cs| && i < |cs[0].savers|
    ensures i < |cs[n].savers| && PaidFor(layout, cs[n].server, cs[n].savers[i], OthersLanded(layout, cs, calls, n, i))
  {
    RunKeepsInv(layout, cs, calls, n);
    if n > 0 {
      RunIsPaidFor(layout, cs, calls, n - 1, i);
      RunKeepsInv(layout, cs, calls, n - 1);
      assert StepAt(layout, cs, calls, n - 1);
      StepIsPaidFor(layout, cs[n - 1], calls[n - 1].saver, calls[n - 1].reply, i,
                    OthersLanded(layout, cs, calls, n - 1, i));
    }
  }

  /** A save gives up over conflicts only after five updates of others have landed on its secret while
      it was retrying. */
  lemma GivingUpIsPaidFor(layout: Layout, cs: seq<Cluster>, calls: seq<Call>, n: nat, i: nat)
    requires IsRun(layout, cs, calls) && n < |cs| && i < |cs[0].savers| && i < |cs[n].savers|
    requires cs[n].savers[i].pc.GaveUp?
    ensures OthersLanded(layout, cs, calls, n, i) >= 5
  {
    RunIsPaidFor(layout, cs, calls, n, i);
  }

  /** The server calls that saver `i` has made among the first `n`. */
  ghost function OwnCalls(calls: seq<Call>, n: nat, i: nat): nat
    requires n <= |calls|
  {
    if n == 0 then 0 else OwnCalls(calls, n - 1, i) + Bit(calls[n - 1].saver == i)
  }

  ghost predicate OwnCallsServed(calls: seq<Call>, n: nat, i: nat)
    requires n <= |calls|
  {
    forall k :: 0 <= k < n && calls[k].saver == i ==> calls[k].reply.Served?
  }

  /** How many calls bring a save to where it is, if all of them are served; `there` says whether its secret
      was there before. */
  ghost predicate OnTime(pc: Pc, own: nat, there: bool) {
    match pc
    case Checking => own == 0
    case Creating => own == 1 && !there
    case Getting(tries) => own <= 2 + 2 * tries - Bit(there)
    case Updating(tries, _) => own <= 3 + 2 * tries - Bit(there)
    case Saved => true
    case GaveUp => true
    case Failed => false
  }

  lemma {:induction false} ServedSaveIsOnTime(layout: Layout, cs: seq<Cluster>, calls: seq<Call>, n: nat, i: nat)
    requires IsRun(layout, cs, calls) && n < |cs| && i < |cs[0].savers| && OwnCallsServed(calls, n, i)
    ensures i < |cs[n].savers| && (HasSecret(layout, cs[0], i) ==> HasSecret(layout, cs[n], i))
    ensures OnTime(cs[n].savers[i].pc, OwnCalls(calls, n, i), HasSecret(layout, cs[0], i))
  {
    if n > 0 {
      ServedSaveIsOnTime(layout, cs, calls, n - 1, i);
      RunKeepsInv(layout, cs, calls, n - 1);
      assert StepAt(layout, cs, calls, n - 1);
      assert SaverInv(layout, cs[n - 1].server, cs[n - 1].savers[i]);
    }
  }

  ghost predicate HasSecret(layout: Layout, c: Cluster, i: nat)
    requires i < |c.savers|
  {
    NameOf(layout, c.savers[i]) in c.server
  }

  /** A save all of whose own calls are served has not failed, whatever the others do; after at most twelve of
      its calls, eleven if its secret was there at the start, it has saved or given up; and unless five
      updates of others landed on its secret while it was retrying, it has saved. */
  lemma ServedSaveEnds(layout: Layout, cs: seq<Cluster>, calls: seq<Call>, n: nat, i: nat)
    requires IsRun(layout, cs, calls) && n < |cs| && i < |cs[0].savers| && OwnCallsServed(calls, n, i)
    ensures i < |cs[n].savers| && !cs[n].savers[i].pc.Failed?
    ensures OwnCalls(calls, n, i) >= (if HasSecret(layout, cs[0], i) then 11 else 12) ==>
              cs[n].savers[i].pc.Saved? || (cs[n].savers[i].pc.GaveUp? && OthersLanded(layout, cs, calls, n, i) >= 5)
  {
    RunKeepsInv(layout, cs, calls, n);
    assert SaverInv(layout, cs[n].server, cs[n].savers[i]);
    ServedSaveIsOnTime(layout, cs, calls, n, i);
    if cs[n].savers[i].pc.GaveUp? {
      GivingUpIsPaidFor(layout, cs, calls, n, i);
    }
  }

  predicate Finished(pc: Pc) { pc.Saved? || pc.GaveUp? || pc.Failed? }

  lemma {:induction false} FinishedStays(layout: Layout, cs: seq<Cluster>, calls: seq<Call>, m: nat, n: nat, i: nat)
    requires IsRun(layout, cs, calls) && m <= n < |cs| && i < |cs[m].savers| && Finished(cs[m].savers[i].pc)
    ensures i < |cs[n].savers| && cs[n].savers[i].pc == cs[m].savers[i].pc
  {
    if m < n {
      FinishedStays(layout, cs, calls, m, n - 1, i);
      assert StepAt(layout, cs, calls, n - 1);
    }
  }

  /** One call of an unfinished save that is not served, and the save has failed for good, even if the call
      had its effect on the server. */
  lemma UnservedSaveFails(layout: Layout, cs: seq<Cluster>, calls: seq<Call>, k: nat, n: nat, i: nat)
    requires IsRun(layout, cs, calls) && k < n < |cs| && calls[k].saver == i && !calls[k].reply.Served?
    requires i < |cs[k].savers| && !Finished(cs[k].savers[i].pc)
    ensures i < |cs[n].savers| && cs[n].savers[i].pc.Failed?
  {
    assert StepAt(layout, cs, calls, k);
    FinishedStays(layout, cs, calls, k + 1, n, i);
  }

  // ----- whole runs against the map

  datatype Put = Put(host: string, info: NodeHostInfo)

  /** The updates that land among the first `n` calls, in order. */
  ghost function LandedPuts(layout: Layout, cs: seq<Cluster>, calls: seq<Call>, n: nat): seq<Put>
    requires IsRun(layout, cs, calls) && n <= |calls|
  {
    if n == 0 then []
    else
      assert StepAt(layout, cs, calls, n - 1);
      var s := cs[n - 1].savers[calls[n - 1].saver];
      LandedPuts(layout, cs, calls, n - 1)
      + if Lands(layout, cs[n - 1], calls[n - 1].saver, calls[n - 1].reply) then [Put(s.host, s.info)] else []
  }

  ghost function Applied(view: imap<string, NodeHostInfo>, puts: seq<Put>): imap<string, NodeHostInfo> {
    if puts == [] then view
    else
      var last := puts[|puts| - 1];
      Applied(view, puts[..|puts| - 1])[last.host := Marshal(last.info)]
  }

  /** In either layout, at every point of every run, the store holds what it held at the start with the
      landed updates applied in order. */
  lemma {:induction false} RunRefinesMap(layout: Layout, cs: seq<Cluster>, calls: seq<Call>, n: nat)
    requires IsRun(layout, cs, calls) && n < |cs|
    ensures View(layout, cs[n].server) == Applied(View(layout, cs[0].server), LandedPuts(layout, cs, calls, n))
  {
    if n > 0 {
      RunRefinesMap(layout, cs, calls, n - 1);
      RunKeepsInv(layout, cs, calls, n - 1);
      assert StepAt(layout, cs, calls, n - 1);
      StepRefinesMap(layout, cs[n - 1], calls[n - 1].saver, calls[n - 1].reply);
      var before, now := LandedPuts(layout, cs, calls, n - 1), LandedPuts(layout, cs, calls, n);
      if now != before {
        assert now[..|now| - 1] == before;
      }
    }
  }

  /** So the two layouts are interchangeable: any two runs, one in each, that begin with the same
      entries and in which the same updates land, end with the same entries. */
  lemma LayoutsAgree(cs: seq<Cluster>, calls: seq<Call>, n: nat, ds: seq<Cluster>, calls': seq<Call>, m: nat)
    requires IsRun(Unified, cs, calls) && n < |cs| && IsRun(PerNode, ds, calls') && m < |ds|
    requires View(Unified, cs[0].server) == View(PerNode, ds[0].server)
    requires LandedPuts(Unified, cs, calls, n) == LandedPuts(PerNode, ds, calls', m)
    ensures View(Unified, cs[n].server) == View(PerNode, ds[m].server)
  {
    RunRefinesMap(Unified, cs, calls, n);
    RunRefinesMap(PerNode, ds, calls', m);
  }
}
