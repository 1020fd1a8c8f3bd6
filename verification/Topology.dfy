/** Topology matching of csi/backend/backend.go: a backend's configured topologies are expanded by
    its protocol, and a topology asked for is matched against the expanded list, its protocol
    labels apart from the others. */
module Topology {
  import opened Basics

  const PROTOCOL_PREFIX := "topology.kubernetes.io/protocol."

  type Labels = map<string, string>

  predicate IsProtocolKey(key: string) { PROTOCOL_PREFIX <= key }

  /** `extractProtocolTopology`: the protocol labels and the others. */
  function ProtocolLabels(t: Labels): Labels { map k | k in t && IsProtocolKey(k) :: t[k] }

  function OtherLabels(t: Labels): Labels { map k | k in t && !IsProtocolKey(k) :: t[k] }

  predicate Contained(labels: Labels, t: Labels) {
    forall k :: k in labels ==> k in t && t[k] == labels[k]
  }

  /** `checkProtocolSupport`: some protocol label is shared. */
  predicate SharesProtocol(supported: Labels, protocols: Labels) {
    exists k :: k in supported && IsProtocolKey(k) && k in protocols && protocols[k] == supported[k]
  }

  /** The test that one entry of the supported list is put to. */
  predicate EntrySupports(supported: Labels, asked: Labels) {
    && (ProtocolLabels(asked) != map[] ==> SharesProtocol(supported, ProtocolLabels(asked)))
    && Contained(OtherLabels(asked), supported)
  }

  predicate Supports(supported: seq<Labels>, asked: Labels) {
    exists i :: 0 <= i < |supported| && EntrySupports(supported[i], asked)
  }

  // ----- the labels as pairs of a key and a value

  /** The ordinary labels asked for, and the protocol labels. */
  ghost function Ordinary(t: Labels): set<(string, string)> {
    set kv | kv in t.Items && !("topology.kubernetes.io/protocol." <= kv.0)
  }

  ghost function Protocols(t: Labels): set<(string, string)> {
    set kv | kv in t.Items && "topology.kubernetes.io/protocol." <= kv.0
  }

  lemma OrdinaryItems(t: Labels)
    ensures OtherLabels(t).Items == Ordinary(t) && ProtocolLabels(t).Items == Protocols(t)
  {
    forall kv ensures kv in OtherLabels(t).Items <==> kv in Ordinary(t) {}
    forall kv ensures kv in ProtocolLabels(t).Items <==> kv in Protocols(t) {}
  }

  lemma ContainedIff(labels: Labels, t: Labels)
    ensures Contained(labels, t) <==> labels.Items <= t.Items
  {
    if Contained(labels, t) {
      forall kv | kv in labels.Items ensures kv in t.Items {
        assert kv.0 in labels && labels[kv.0] == kv.1;
      }
    }
    if labels.Items <= t.Items {
      forall k | k in labels ensures k in t && t[k] == labels[k] {
        assert (k, labels[k]) in labels.Items;
      }
    }
  }

  lemma EmptyIff(t: Labels)
    ensures t == map[] <==> t.Items == {}
  {
    if t != map[] {
      var k :| k in t;
      assert (k, t[k]) in t.Items;
    }
  }

  lemma SharesIff(t: Labels, asked: Labels)
    ensures SharesProtocol(t, ProtocolLabels(asked)) <==> exists kv :: kv in Protocols(asked) && kv in t.Items
  {
    OrdinaryItems(asked);
    if SharesProtocol(t, ProtocolLabels(asked)) {
      var k :| k in t && IsProtocolKey(k) && k in ProtocolLabels(asked) && ProtocolLabels(asked)[k] == t[k];
      assert (k, t[k]) in ProtocolLabels(asked).Items && (k, t[k]) in t.Items;
    }
    if kv :| kv in Protocols(asked) && kv in t.Items {
      assert kv in ProtocolLabels(asked).Items;
      assert kv.0 in t && IsProtocolKey(kv.0) && ProtocolLabels(asked)[kv.0] == t[kv.0];
    }
  }

  /** An entry meets a topology asked for: it has all the ordinary labels with their values, and one of the
      protocol labels, if there are any. */
  ghost predicate Meets(t: Labels, asked: Labels) {
    && Ordinary(asked) <= t.Items
    && (Protocols(asked) == {} || exists kv :: kv in Protocols(asked) && kv in t.Items)
  }

  lemma EntryMeets(t: Labels, asked: Labels)
    ensures EntrySupports(t, asked) <==> Meets(t, asked)
  {
    OrdinaryItems(asked);
    ContainedIff(OtherLabels(asked), t);
    EmptyIff(ProtocolLabels(asked));
    SharesIff(t, asked);
  }

  // ----- the search

  /** `checkProtocolSupport`, label by label. */
  method CheckProtocolSupport(supported: Labels, protocols: Labels) returns (found: bool)
    ensures found == SharesProtocol(supported, protocols)
  {
    var left := supported.Keys;
    while left != {}
      invariant left <= supported.Keys
      invariant forall k :: k in supported.Keys - left ==> !(IsProtocolKey(k) && k in protocols && protocols[k] == supported[k])
    {
      var key :| key in left;
      if IsProtocolKey(key) {
        if key in protocols && supported[key] == protocols[key] {
          return true;
        }
      }
      left := left - {key};
    }
    found := false;
  }

  /** Whether every label has its value in the entry. */
  method HasAll(supported: Labels, labels: Labels) returns (eachFound: bool)
    ensures eachFound == Contained(labels, supported)
  {
    var left := labels.Keys;
    while left != {}
      invariant left <= labels.Keys
      invariant forall k :: k in labels.Keys - left ==> k in supported && supported[k] == labels[k]
    {
      var key :| key in left;
      if key !in supported || supported[key] != labels[key] {
        return false;
      }
      left := left - {key};
    }
    eachFound := true;
  }

  /** `isTopologySupportedByBackend`. */
  method IsTopologySupported(supported: seq<Labels>, asked: Labels) returns (found: bool)
    ensures found == Supports(supported, asked)
    ensures found <==> exists i :: 0 <= i < |supported| && Meets(supported[i], asked)
  {
    forall i | 0 <= i < |supported| ensures EntrySupports(supported[i], asked) <==> Meets(supported[i], asked) {
      EntryMeets(supported[i], asked);
    }
    var protocols, others := ProtocolLabels(asked), OtherLabels(asked);
    for i := 0 to |supported|
      invariant forall j :: 0 <= j < i ==> !EntrySupports(supported[j], asked)
    {
      var shared := true;
      if protocols != map[] {
        shared := CheckProtocolSupport(supported[i], protocols);
      }
      if shared {
        var eachFound := HasAll(supported[i], others);
        if eachFound {
          return true;
        }
      }
    }
    found := false;
  }

  /** The list after `addProtocolTopology`: each entry, each entry with the protocol label, and the
      protocol label alone. */
  function WithProtocol(t: Labels, key: string, driver: string): Labels { t[key := driver] }

  function Combined(ts: seq<Labels>, key: string, driver: string): seq<Labels> {
    seq(|ts|, i requires 0 <= i < |ts| => WithProtocol(ts[i], key, driver))
  }

  function Expanded(ts: seq<Labels>, key: string, driver: string): seq<Labels> {
    ts + Combined(ts, key, driver) + [map[key := driver]]
  }

  /** A backend, as far as topologies go: the `protocol` parameter, if it is a string. */
  class Backend {
    const protocol: Option<string>
    var supportedTopologies: seq<Labels>

    constructor (protocol: Option<string>, supportedTopologies: seq<Labels>)
      ensures this.protocol == protocol && this.supportedTopologies == supportedTopologies
    {
      this.protocol := protocol;
      this.supportedTopologies := supportedTopologies;
    }

    /** `addProtocolTopology`. */
    method AddProtocolTopology(driver: string) returns (ok: bool)
      modifies this
      ensures ok == protocol.Some?
      ensures !ok ==> supportedTopologies == old(supportedTopologies)
      ensures ok ==> supportedTopologies == Expanded(old(supportedTopologies), PROTOCOL_PREFIX + protocol.value, driver)
    {
      if protocol.None? {
        return false;
      }
      var key := PROTOCOL_PREFIX + protocol.value;
      if |supportedTopologies| > 0 {
        var combination := [];
        for i := 0 to |supportedTopologies|
          invariant supportedTopologies == old(supportedTopologies)
          invariant combination == Combined(supportedTopologies[..i], key, driver)
        {
          combination := combination + [WithProtocol(supportedTopologies[i], key, driver)];
        }
        assert supportedTopologies[..|supportedTopologies|] == supportedTopologies;
        supportedTopologies := supportedTopologies + combination;
      }
      supportedTopologies := supportedTopologies + [map[key := driver]];
      ok := true;
    }
  }

  // ----- what the expanded list supports

  predicate NoProtocolKeys(t: Labels) { forall k :: k in t ==> !IsProtocolKey(k) }

  lemma ContainedInExpanded(r: Labels, t: Labels, key: string, driver: string)
    requires NoProtocolKeys(r) && IsProtocolKey(key)
    ensures Contained(r, WithProtocol(t, key, driver)) <==> Contained(r, t)
    ensures Contained(r, map[key := driver]) <==> r == map[]
  {
    if Contained(r, WithProtocol(t, key, driver)) {
      forall k | k in r ensures k in t && t[k] == r[k] {
        assert k in WithProtocol(t, key, driver);
      }
    }
    if Contained(r, map[key := driver]) {
      assert r.Keys <= map[key := driver].Keys;
      assert key !in r;
    }
  }

  lemma SharedInExpanded(t: Labels, p: Labels, key: string, driver: string)
    requires IsProtocolKey(key)
    ensures SharesProtocol(WithProtocol(t, key, driver), p) ==> SharesProtocol(t, p) || (key in p && p[key] == driver)
    ensures key in p && p[key] == driver ==> SharesProtocol(WithProtocol(t, key, driver), p)
    ensures SharesProtocol(map[key := driver], p) <==> key in p && p[key] == driver
  {
    var e := WithProtocol(t, key, driver);
    if key in p && p[key] == driver {
      assert key in e && IsProtocolKey(key) && p[key] == e[key];
      assert key in map[key := driver];
    }
    if SharesProtocol(e, p) {
      var k :| k in e && IsProtocolKey(k) && k in p && p[k] == e[k];
      assert k != key ==> k in t && t[k] == p[k];
    }
  }

  /** What the matching promises, without the expanded list: the ordinary labels are empty or
      contained in a configured topology, and the protocol labels are empty or give the backend's
      protocol the driver's name. */
  predicate Promised(ts: seq<Labels>, key: string, driver: string, asked: Labels) {
    var r, p := OtherLabels(asked), ProtocolLabels(asked);
    && (r == map[] || exists i :: 0 <= i < |ts| && Contained(r, ts[i]))
    && (p == map[] || (key in p && p[key] == driver))
  }

  /** A configured topology has one of the protocol labels asked for, and all the others. */
  predicate Borrowed(ts: seq<Labels>, asked: Labels) {
    exists i :: 0 <= i < |ts| && SharesProtocol(ts[i], ProtocolLabels(asked)) && Contained(OtherLabels(asked), ts[i])
  }

  lemma SupportedIsPromised(ts: seq<Labels>, key: string, driver: string, asked: Labels, i: nat)
    requires IsProtocolKey(key)
    requires i < |Expanded(ts, key, driver)| && EntrySupports(Expanded(ts, key, driver)[i], asked)
    ensures Promised(ts, key, driver, asked) || Borrowed(ts, asked)
  {
    var r, p := OtherLabels(asked), ProtocolLabels(asked);
    var n := |ts|;
    if i < n {
      assert Expanded(ts, key, driver)[i] == ts[i];
    } else if i < 2 * n {
      assert Expanded(ts, key, driver)[i] == WithProtocol(ts[i - n], key, driver);
      SharedInExpanded(ts[i - n], p, key, driver);
      ContainedInExpanded(r, ts[i - n], key, driver);
    } else {
      assert Expanded(ts, key, driver)[i] == map[key := driver];
      SharedInExpanded(map[], p, key, driver);
      ContainedInExpanded(r, map[], key, driver);
    }
  }

  lemma PromisedIsSupported(ts: seq<Labels>, key: string, driver: string, asked: Labels)
    requires IsProtocolKey(key) && Promised(ts, key, driver, asked)
    ensures Supports(Expanded(ts, key, driver), asked)
  {
    var r, p := OtherLabels(asked), ProtocolLabels(asked);
    var list, n := Expanded(ts, key, driver), |ts|;
    if r == map[] {
      SharedInExpanded(map[], p, key, driver);
      assert list[2 * n] == map[key := driver];
      assert EntrySupports(list[2 * n], asked);
    } else {
      var i :| 0 <= i < n && Contained(r, ts[i]);
      SharedInExpanded(ts[i], p, key, driver);
      ContainedInExpanded(r, ts[i], key, driver);
      assert list[n + i] == WithProtocol(ts[i], key, driver);
      assert EntrySupports(list[n + i], asked);
    }
  }

  lemma SupportedIffPromisedOrBorrowed(ts: seq<Labels>, protocol: string, driver: string, asked: Labels)
    ensures var key := PROTOCOL_PREFIX + protocol;
            Supports(Expanded(ts, key, driver), asked) <==> Promised(ts, key, driver, asked) || Borrowed(ts, asked)
  {
    var key := PROTOCOL_PREFIX + protocol;
    var list := Expanded(ts, key, driver);
    if Supports(list, asked) {
      var i :| 0 <= i < |list| && EntrySupports(list[i], asked);
      SupportedIsPromised(ts, key, driver, asked, i);
    }
    if Promised(ts, key, driver, asked) {
      PromisedIsSupported(ts, key, driver, asked);
    }
    if Borrowed(ts, asked) {
      var i :| 0 <= i < |ts| && SharesProtocol(ts[i], ProtocolLabels(asked)) && Contained(OtherLabels(asked), ts[i]);
      assert list[i] == ts[i];
    }
  }

  /** The ordinary labels asked for, if any, stand in one configured topology with their values. */
  ghost predicate OrdinaryMet(ts: seq<Labels>, asked: Labels) {
    Ordinary(asked) == {} || exists i :: 0 <= i < |ts| && Ordinary(asked) <= ts[i].Items
  }

  /** The protocol labels asked for, if any, have the backend's protocol with the driver's name. */
  ghost predicate ProtocolMet(protocol: string, driver: string, asked: Labels) {
    Protocols(asked) == {} || ("topology.kubernetes.io/protocol." + protocol, driver) in asked.Items
  }

  /** A configured topology has one of the protocol labels asked for, and all the ordinary ones. */
  ghost predicate OfferedByHand(ts: seq<Labels>, asked: Labels) {
    exists i :: 0 <= i < |ts| && Ordinary(asked) <= ts[i].Items && exists kv :: kv in Protocols(asked) && kv in ts[i].Items
  }

  lemma PromisedIff(ts: seq<Labels>, protocol: string, driver: string, asked: Labels)
    ensures Promised(ts, PROTOCOL_PREFIX + protocol, driver, asked) <==>
              OrdinaryMet(ts, asked) && ProtocolMet(protocol, driver, asked)
    ensures Borrowed(ts, asked) <==> OfferedByHand(ts, asked)
  {
    OrdinaryItems(asked);
    EmptyIff(OtherLabels(asked));
    EmptyIff(ProtocolLabels(asked));
    forall i | 0 <= i < |ts|
      ensures Contained(OtherLabels(asked), ts[i]) <==> Ordinary(asked) <= ts[i].Items
      ensures SharesProtocol(ts[i], ProtocolLabels(asked)) <==> exists kv :: kv in Protocols(asked) && kv in ts[i].Items
    {
      ContainedIff(OtherLabels(asked), ts[i]);
      SharesIff(ts[i], asked);
    }
    var key, p := PROTOCOL_PREFIX + protocol, ProtocolLabels(asked);
    assert key in p && p[key] == driver <==> (key, driver) in p.Items;
    assert (key, driver) in Protocols(asked) <==> (key, driver) in asked.Items;
  }

  /** After the expansion, a topology is supported exactly when its ordinary and its protocol labels are
      met, or when a configured topology with protocol labels of its own offers it. */
  lemma SupportedIff(ts: seq<Labels>, protocol: string, driver: string, asked: Labels)
    ensures Supports(Expanded(ts, PROTOCOL_PREFIX + protocol, driver), asked) <==>
              (OrdinaryMet(ts, asked) && ProtocolMet(protocol, driver, asked)) || OfferedByHand(ts, asked)
  {
    SupportedIffPromisedOrBorrowed(ts, protocol, driver, asked);
    PromisedIff(ts, protocol, driver, asked);
  }

  /** So with no protocol label configured by hand, it is supported exactly when both are met. */
  lemma SupportedIffPromised(ts: seq<Labels>, protocol: string, driver: string, asked: Labels)
    requires forall j :: 0 <= j < |ts| ==> Protocols(ts[j]) == {}
    ensures Supports(Expanded(ts, PROTOCOL_PREFIX + protocol, driver), asked) <==>
              OrdinaryMet(ts, asked) && ProtocolMet(protocol, driver, asked)
  {
    SupportedIff(ts, protocol, driver, asked);
    forall i, kv | 0 <= i < |ts| && kv in ts[i].Items ensures kv !in Protocols(asked) {
      assert kv !in Protocols(ts[i]);
    }
  }

  /** A topology with an ordinary label whose value stands in no configured topology is not supported. */
  lemma UnknownLabelIsRefused(ts: seq<Labels>, protocol: string, driver: string, asked: Labels, kv: (string, string))
    requires kv in Ordinary(asked) && forall i :: 0 <= i < |ts| ==> kv !in ts[i].Items
    ensures !Supports(Expanded(ts, PROTOCOL_PREFIX + protocol, driver), asked)
  {
    SupportedIff(ts, protocol, driver, asked);
  }

  /** With a protocol label configured by hand this is no longer so: a topology asking for another
      protocol is then supported. */
  lemma ConfiguredProtocolWidens()
    ensures var ts := [map[PROTOCOL_PREFIX + "fc" := "csi.huawei.com"]];
            var asked := map[PROTOCOL_PREFIX + "fc" := "csi.huawei.com"];
            var key := PROTOCOL_PREFIX + "iscsi";
            Supports(Expanded(ts, key, "csi.huawei.com"), asked) && !ProtocolMet("iscsi", "csi.huawei.com", asked)
  {
    var fc, key := PROTOCOL_PREFIX + "fc", PROTOCOL_PREFIX + "iscsi";
    var t := map[fc := "csi.huawei.com"];
    assert fc[|PROTOCOL_PREFIX|] == 'f' && key[|PROTOCOL_PREFIX|] == 'i';
    var ts := [t];
    assert ProtocolLabels(t) == t && OtherLabels(t) == map[];
    assert fc in t && IsProtocolKey(fc);
    assert SharesProtocol(t, t);
    assert EntrySupports(Expanded(ts, key, "csi.huawei.com")[0], t);
    assert (fc, "csi.huawei.com") in Protocols(t);
    assert (key, "csi.huawei.com") !in t.Items;
  }
}
