/** Backend names, and the volume and snapshot ids that contain them: cli/helper/utils.go,
    cli/resources/backend.go and utils/utils.go. */
module BackendNames {
  import opened Basics
  import opened Regexes

  const MAX_LENGTH := 63
  const HASH_LENGTH := 5
  const KEPT_LENGTH := MAX_LENGTH - HASH_LENGTH - 1

  // ----- the check of names

  predicate IsAlnum(c: char) { 'a' <= c <= 'z' || '0' <= c <= '9' }
  predicate IsInner(c: char) { c == '-' || IsAlnum(c) }

  /** A label of letters, digits and hyphens that starts and ends with a letter or digit (section 2.1
      of RFC 1123). */
  predicate IsLabel(s: string) {
    && s != [] && IsAlnum(s[0]) && IsAlnum(s[|s| - 1])
    && forall k :: 0 <= k < |s| ==> IsInner(s[k])
  }

  const TAIL := Cat(Star(One(IsInner)), One(IsAlnum))
  const LABEL := Cat(One(IsAlnum), Opt(TAIL))
  const SUBDOMAIN := Cat(LABEL, Star(LABEL))

  predicate IsTail(s: string) {
    s != [] && IsAlnum(s[|s| - 1]) && forall k :: 0 <= k < |s| ==> IsInner(s[k])
  }

  lemma TailMeaning(s: string)
    ensures Matches(TAIL, s) <==> IsTail(s)
  {
    CatMeans(Star(One(IsInner)), One(IsAlnum), s);
    if i :| 0 <= i <= |s| && Matches(Star(One(IsInner)), s[..i]) && Matches(One(IsAlnum), s[i..]) {
      StarOfOne(IsInner, s[..i]);
      OneMeans(IsAlnum, s[i..]);
      assert s[i..][0] == s[|s| - 1];
      forall k | 0 <= k < |s| ensures IsInner(s[k]) {
        if k < i { assert s[..i][k] == s[k]; }
      }
    }
    if IsTail(s) {
      StarOfOne(IsInner, s[..|s| - 1]);
      OneMeans(IsAlnum, s[|s| - 1..]);
      assert Matches(Star(One(IsInner)), s[..|s| - 1]) && Matches(One(IsAlnum), s[|s| - 1..]);
    }
  }

  lemma LabelMeaning(s: string)
    ensures Matches(LABEL, s) <==> IsLabel(s)
  {
    CatMeans(One(IsAlnum), Opt(TAIL), s);
    if i :| 0 <= i <= |s| && Matches(One(IsAlnum), s[..i]) && Matches(Opt(TAIL), s[i..]) {
      OneMeans(IsAlnum, s[..i]);
      OptMeans(TAIL, s[i..]);
      assert i == 1 && s[..1][0] == s[0];
      TailMeaning(s[1..]);
      if |s| > 1 {
        assert s[1..][|s| - 2] == s[|s| - 1];
      }
      forall k | 0 <= k < |s| ensures IsInner(s[k]) {
        if k > 0 { assert s[1..][k - 1] == s[k]; }
      }
    }
    if IsLabel(s) {
      TailMeaning(s[1..]);
      OneMeans(IsAlnum, s[..1]);
      OptMeans(TAIL, s[1..]);
      assert Matches(One(IsAlnum), s[..1]) && Matches(Opt(TAIL), s[1..]);
    }
  }

  lemma {:induction false} LabelsMeaning(s: string)
    ensures Matches(Star(LABEL), s) <==> s == [] || IsLabel(s)
  {
    StarMeans(LABEL, s);
    if s != [] && Matches(Star(LABEL), s) {
      var i :| 0 < i <= |s| && Matches(LABEL, s[..i]) && Matches(Star(LABEL), s[i..]);
      LabelMeaning(s[..i]);
      LabelsMeaning(s[i..]);
      JoinedLabels(s[..i], s[i..]);
      assert s == s[..i] + s[i..];
    }
    if s != [] && IsLabel(s) {
      assert s[..|s|] == s && s[|s|..] == [];
      LabelMeaning(s);
      assert Matches(LABEL, s[..|s|]) && Matches(Star(LABEL), s[|s|..]);
    }
  }

  lemma JoinedLabels(s: string, t: string)
    requires IsLabel(s) && (t == [] || IsLabel(t))
    ensures IsLabel(s + t)
  {
    assert t == [] ==> s + t == s;
  }

  /** The pattern for names accepts exactly the labels: repeating the label adds nothing. */
  lemma PatternIsLabels(s: string)
    ensures Matches(SUBDOMAIN, s) <==> IsLabel(s)
  {
    CatMeans(LABEL, Star(LABEL), s);
    if i :| 0 <= i <= |s| && Matches(LABEL, s[..i]) && Matches(Star(LABEL), s[i..]) {
      LabelMeaning(s[..i]);
      LabelsMeaning(s[i..]);
      JoinedLabels(s[..i], s[i..]);
      assert s == s[..i] + s[i..];
    }
    if IsLabel(s) {
      assert s[..|s|] == s && s[|s|..] == [];
      LabelMeaning(s);
      assert Matches(LABEL, s[..|s|]) && Matches(Star(LABEL), s[|s|..]);
    }
  }

  /** `IsDNSFormat`. */
  ghost predicate IsDnsFormat(s: string) { |s| <= MAX_LENGTH && Matches(SUBDOMAIN, s) }

  lemma DnsFormatMeaning(s: string)
    ensures IsDnsFormat(s) <==> |s| <= 63 && IsLabel(s)
    ensures IsDnsFormat(s) ==> s != [] && '.' !in s
  {
    PatternIsLabels(s);
  }

  // ----- the mapping of names

  /** Library functions: SHA-256 in hexadecimal, and lower case. */
  datatype Library = Library(sha256: string -> string, toLower: string -> string)

  predicate IsHexDigit(c: char) { 'a' <= c <= 'f' || '0' <= c <= '9' }

  ghost predicate HexDigests(lib: Library) {
    forall s :: |lib.sha256(s)| == 64 && forall k :: 0 <= k < 64 ==> IsHexDigit(lib.sha256(s)[k])
  }

  function Replaced(s: string, from: char, to: char): string {
    seq(|s|, i requires 0 <= i < |s| => if s[i] == from then to else s[i])
  }

  function Truncated(name: string): string {
    if |name| > KEPT_LENGTH then name[..KEPT_LENGTH] else name
  }

  function NameMapping(lib: Library, name: string): string {
    lib.toLower(Replaced(Replaced(name, '_', '-'), '.', '-'))
  }

  function HashCode(lib: Library, text: string): string {
    var digest := lib.sha256(text);
    if |digest| < HASH_LENGTH then digest else digest[..HASH_LENGTH]
  }

  /** `BuildBackendName`. */
  function BuildBackendName(lib: Library, name: string): string {
    NameMapping(lib, Truncated(name)) + "-" + HashCode(lib, Truncated(name))
  }

  /** `GetBackendName`. */
  ghost function GetBackendName(lib: Library, name: string): string {
    if IsDnsFormat(name) then name else BuildBackendName(lib, name)
  }

  /** `processBackendName`: the name a backend is configured under. Names from JSON files are mapped,
      as are others if the user asked for it. */
  ghost function ProcessBackendName(lib: Library, name: string, fromJson: bool, notValidate: bool): Result<string> {
    if name == "" then Err
    else
      var lenient := notValidate || fromJson;
      if !lenient && !IsDnsFormat(name) then Err
      else
        var mapped := if lenient && !IsDnsFormat(name) then BuildBackendName(lib, name) else name;
        if IsDnsFormat(mapped) then Ok(mapped) else Err
  }

  /** A name that was accepted keeps its meaning: the driver maps the user's name and the accepted
      name to the accepted name. */
  lemma AcceptedNameIsFixed(lib: Library, name: string, fromJson: bool, notValidate: bool, b: string)
    requires ProcessBackendName(lib, name, fromJson, notValidate) == Ok(b)
    ensures GetBackendName(lib, name) == b && GetBackendName(lib, b) == b
    ensures IsLabel(b) && |b| <= 63
  {
    DnsFormatMeaning(b);
  }

  /** Which names are configured under the same name: those that agree after truncation, replacement
      and folding, and whose truncated forms have the same hash. In particular, what comes after the
      first 57 characters makes no difference. */
  lemma SameBuiltNameIff(lib: Library, x: string, y: string)
    requires HexDigests(lib)
    ensures BuildBackendName(lib, x) == BuildBackendName(lib, y) <==>
              && NameMapping(lib, Truncated(x)) == NameMapping(lib, Truncated(y))
              && HashCode(lib, Truncated(x)) == HashCode(lib, Truncated(y))
  {
    var mx, my := NameMapping(lib, Truncated(x)), NameMapping(lib, Truncated(y));
    var hx, hy := HashCode(lib, Truncated(x)), HashCode(lib, Truncated(y));
    assert |hx| == |hy| == HASH_LENGTH;
    if mx + "-" + hx == my + "-" + hy {
      assert (mx + "-" + hx)[..|mx|] == mx && (mx + "-" + hx)[|mx| + 1..] == hx;
      assert (my + "-" + hy)[..|my|] == my && (my + "-" + hy)[|my| + 1..] == hy;
    }
  }

  /** A label that looks like a mapped name: the folded text, a hyphen and the hash. */
  predicate IsMappedForm(lib: Library, given: string, name: string) {
    var mapped, hash := NameMapping(lib, Truncated(name)), HashCode(lib, Truncated(name));
    && |given| == |mapped| + 1 + |hash|
    && given[..|mapped|] == mapped && given[|mapped|] == '-' && given[|mapped| + 1..] == hash
  }

  lemma MappedFormIff(lib: Library, given: string, name: string)
    ensures given == BuildBackendName(lib, name) <==> IsMappedForm(lib, given, name)
  {
    var mapped, hash := NameMapping(lib, Truncated(name)), HashCode(lib, Truncated(name));
    var built := mapped + "-" + hash;
    assert built[..|mapped|] == mapped && built[|mapped| + 1..] == hash;
    if IsMappedForm(lib, given, name) {
      assert given == given[..|mapped|] + [given[|mapped|]] + given[|mapped| + 1..];
    }
  }

  /** Exactly which names the driver takes for the same backend: equal names; two names that are not
      labels and agree after truncation and folding, and in their hash; and a label that happens to be
      the mapped form of a name that is not one. */
  lemma SameBackendIff(lib: Library, x: string, y: string)
    requires HexDigests(lib)
    ensures GetBackendName(lib, x) == GetBackendName(lib, y) <==>
              match (IsDnsFormat(x), IsDnsFormat(y))
              case (true, true) => x == y
              case (true, false) => IsMappedForm(lib, x, y)
              case (false, true) => IsMappedForm(lib, y, x)
              case (false, false) =>
                && NameMapping(lib, Truncated(x)) == NameMapping(lib, Truncated(y))
                && HashCode(lib, Truncated(x)) == HashCode(lib, Truncated(y))
  {
    SameBuiltNameIff(lib, x, y);
    MappedFormIff(lib, x, y);
    MappedFormIff(lib, y, x);
  }

  /** Two different names of backends can thus end up as one. */
  lemma LongNamesCollide(lib: Library, prefix: string, x: string, y: string)
    requires |prefix| == 57 && |prefix + x| > 63 && |prefix + y| > 63
    ensures GetBackendName(lib, prefix + x) == GetBackendName(lib, prefix + y)
  {
    DnsFormatMeaning(prefix + x);
    DnsFormatMeaning(prefix + y);
    assert Truncated(prefix + x) == prefix == Truncated(prefix + y);
  }

  /** So can a name and the label that it is mapped to. */
  lemma MappedLabelCollides(lib: Library, name: string)
    requires ProcessBackendName(lib, name, true, false).Ok? && !IsDnsFormat(name)
    ensures BuildBackendName(lib, name) != name
    ensures GetBackendName(lib, BuildBackendName(lib, name)) == GetBackendName(lib, name)
  {
    AcceptedNameIsFixed(lib, name, true, false, BuildBackendName(lib, name));
  }

  // ----- which names are accepted

  predicate IsAscii(s: string) { forall k :: 0 <= k < |s| ==> s[k] < 128 as char }

  function AsciiLower(c: char): char { if 'A' <= c <= 'Z' then (c as int + 32) as char else c }

  ghost predicate LowersAscii(lib: Library) {
    forall s :: IsAscii(s) ==>
      |lib.toLower(s)| == |s| && forall k :: 0 <= k < |s| ==> lib.toLower(s)[k] == AsciiLower(s[k])
  }

  predicate IsLetterOrDigit(c: char) { IsAlnum(c) || 'A' <= c <= 'Z' }
  predicate IsMappable(c: char) { IsLetterOrDigit(c) || c == '-' || c == '_' || c == '.' }

  /** The names that mapping turns into labels. */
  predicate IsMappableName(name: string) {
    && name != [] && IsLetterOrDigit(name[0])
    && forall k :: 0 <= k < |name| ==> IsMappable(name[k])
  }

  lemma MappedAt(lib: Library, name: string, k: nat)
    requires LowersAscii(lib) && IsAscii(name) && k < |name|
    ensures |NameMapping(lib, name)| == |name|
    ensures NameMapping(lib, name)[k] == if name[k] == '_' || name[k] == '.' then '-' else AsciiLower(name[k])
    ensures IsInner(NameMapping(lib, name)[k]) <==> IsMappable(name[k])
    ensures IsAlnum(NameMapping(lib, name)[k]) <==> IsLetterOrDigit(name[k])
  {
    var replaced := Replaced(Replaced(name, '_', '-'), '.', '-');
    assert |replaced| == |name| && IsAscii(replaced);
    assert lib.toLower(replaced)[k] == AsciiLower(replaced[k]);
    assert replaced[k] == if name[k] == '_' || name[k] == '.' then '-' else name[k];
  }

  /** The built name, character by character: the first 57 characters of the name with underscores and dots
      as hyphens and letters in lower case, a hyphen, and the first five digits of their digest. */
  lemma BuiltNameShape(lib: Library, name: string)
    requires HexDigests(lib) && LowersAscii(lib) && IsAscii(name)
    ensures var kept, built := (if |name| > 57 then name[..57] else name), BuildBackendName(lib, name);
            && |built| == |kept| + 6 <= 63
            && (forall k :: 0 <= k < |kept| ==> built[k] == if kept[k] in "_." then '-' else AsciiLower(kept[k]))
            && built[|kept|] == '-' && built[|kept| + 1..] == lib.sha256(kept)[..5]
  {
    var kept, built := Truncated(name), BuildBackendName(lib, name);
    assert IsAscii(kept);
    assert |NameMapping(lib, kept)| == |kept| by {
      assert IsAscii(Replaced(Replaced(kept, '_', '-'), '.', '-'));
    }
    forall k | 0 <= k < |kept| ensures built[k] == if kept[k] in "_." then '-' else AsciiLower(kept[k]) {
      MappedAt(lib, kept, k);
    }
  }

  lemma HashedLabel(mapped: string, hash: string)
    requires |hash| == HASH_LENGTH && forall k :: 0 <= k < |hash| ==> IsHexDigit(hash[k])
    ensures IsLabel(mapped + "-" + hash) <==>
              mapped != [] && IsAlnum(mapped[0]) && forall k :: 0 <= k < |mapped| ==> IsInner(mapped[k])
  {
    var s := mapped + "-" + hash;
    assert s[|s| - 1] == hash[HASH_LENGTH - 1];
    assert s[0] == if mapped == [] then '-' else mapped[0];
    if IsLabel(s) {
      forall k | 0 <= k < |mapped| ensures IsInner(mapped[k]) { assert s[k] == mapped[k]; }
    }
  }

  /** The folded text of a name starts with a letter or digit, has only letters, digits and hyphens, and
      leaves room for the hash. */
  predicate FoldsToLabelHead(lib: Library, name: string) {
    var mapped := NameMapping(lib, Truncated(name));
    && 0 < |mapped| <= KEPT_LENGTH && IsAlnum(mapped[0])
    && forall k :: 0 <= k < |mapped| ==> IsInner(mapped[k])
  }

  /** Exactly which names are accepted. A lenient check looks at the first 57 characters only. */
  lemma AcceptedIff(lib: Library, name: string, fromJson: bool, notValidate: bool)
    requires HexDigests(lib)
    ensures ProcessBackendName(lib, name, fromJson, notValidate).Ok? <==>
              || (IsLabel(name) && |name| <= 63)
              || (name != "" && (fromJson || notValidate) && FoldsToLabelHead(lib, name))
  {
    DnsFormatMeaning(name);
    DnsFormatMeaning(BuildBackendName(lib, name));
    HashedLabel(NameMapping(lib, Truncated(name)), HashCode(lib, Truncated(name)));
  }

  lemma AsciiFoldsIff(lib: Library, name: string)
    requires LowersAscii(lib) && IsAscii(name)
    ensures FoldsToLabelHead(lib, name) <==> IsMappableName(Truncated(name))
  {
    var kept := Truncated(name);
    assert IsAscii(kept);
    if kept == [] {
      assert IsAscii([]) && |lib.toLower([])| == 0;
      assert Replaced(Replaced(kept, '_', '-'), '.', '-') == [];
    } else {
      var mapped := NameMapping(lib, kept);
      forall k | 0 <= k < |kept|
        ensures |mapped| == |kept| && (IsInner(mapped[k]) <==> IsMappable(kept[k]))
        ensures IsAlnum(mapped[k]) <==> IsLetterOrDigit(kept[k])
      {
        MappedAt(lib, kept, k);
      }
      MappedAt(lib, kept, 0);
    }
  }

  /** Of ASCII names, those are accepted leniently whose first 57 characters start with a letter or digit
      and have only letters, digits, hyphens, underscores and dots. */
  lemma AsciiAcceptedIff(lib: Library, name: string, fromJson: bool, notValidate: bool)
    requires HexDigests(lib) && LowersAscii(lib) && IsAscii(name)
    ensures ProcessBackendName(lib, name, fromJson, notValidate).Ok? <==>
              || (IsLabel(name) && |name| <= 63)
              || ((fromJson || notValidate) && IsMappableName(Truncated(name)))
  {
    AcceptedIff(lib, name, fromJson, notValidate);
    AsciiFoldsIff(lib, name);
  }

  // ----- volume and snapshot ids

  /** The position of the first dot, or the length of `s`. */
  function FirstDot(s: string): (i: nat)
    ensures i <= |s| && '.' !in s[..i] && (i < |s| ==> s[i] == '.')
  {
    if s == [] || s[0] == '.' then 0
    else
      var i := FirstDot(s[1..]);
      assert s[..i + 1] == [s[0]] + s[1..][..i];
      i + 1
  }

  /** `strings.SplitN` at dots: at most `n` pieces, the last one unsplit. */
  function SplitN(s: string, n: nat): seq<string>
    requires n > 0
    decreases n
  {
    if n == 1 || FirstDot(s) == |s| then [s]
    else [s[..FirstDot(s)]] + SplitN(s[FirstDot(s) + 1..], n - 1)
  }

  lemma FirstDotUnique(s: string, i: nat)
    requires i < |s| && s[i] == '.' && '.' !in s[..i]
    ensures FirstDot(s) == i
  {
    var j := FirstDot(s);
    forall k | 0 <= k < i ensures s[k] != '.' { assert s[k] in s[..i]; }
    forall k | 0 <= k < j ensures s[k] != '.' { assert s[k] in s[..j]; }
  }

  lemma SplitFirst(b: string, rest: string, n: nat)
    requires n > 1 && '.' !in b
    ensures SplitN(b + "." + rest, n) == [b] + SplitN(rest, n - 1)
  {
    var s := b + "." + rest;
    assert s[..|b|] == b && s[|b|] == '.' && s[|b| + 1..] == rest;
    FirstDotUnique(s, |b|);
  }

  /** `SplitVolumeId`. */
  ghost function SplitVolumeId(lib: Library, id: string): (string, string) {
    var parts := SplitN(id, 2);
    (GetBackendName(lib, parts[0]), if |parts| == 2 then parts[1] else "")
  }

  /** `SplitSnapshotId`. */
  ghost function SplitSnapshotId(lib: Library, id: string): (string, string, string) {
    var parts := SplitN(id, 3);
    if |parts| == 3 then (GetBackendName(lib, parts[0]), parts[1], parts[2])
    else (GetBackendName(lib, parts[0]), "", "")
  }

  /** A volume id gives back the backend and the volume, whatever the volume is called. */
  lemma VolumeIdRoundTrip(lib: Library, name: string, fromJson: bool, notValidate: bool, b: string, volume: string)
    requires ProcessBackendName(lib, name, fromJson, notValidate) == Ok(b)
    ensures SplitVolumeId(lib, b + "." + volume) == (b, volume)
  {
    DnsFormatMeaning(b);
    SplitFirst(b, volume, 2);
  }

  /** A snapshot id gives back its three parts if and only if the parent has no dot. */
  lemma SnapshotIdRoundTripIff(lib: Library, name: string, fromJson: bool, notValidate: bool, b: string,
                               parent: string, snapshot: string)
    requires ProcessBackendName(lib, name, fromJson, notValidate) == Ok(b)
    ensures SplitSnapshotId(lib, b + "." + parent + "." + snapshot) == (b, parent, snapshot) <==> '.' !in parent
  {
    DnsFormatMeaning(b);
    var rest := parent + "." + snapshot;
    assert b + "." + parent + "." + snapshot == b + "." + rest;
    SplitFirst(b, rest, 3);
    if '.' !in parent {
      SplitFirst(parent, snapshot, 2);
    } else {
      assert '.' !in rest[..FirstDot(rest)];
      if SplitN(rest, 2)[0] == parent {
        assert false;
      }
    }
  }
}
