/** Regular expressions over characters, as far as the name checks need them. */
module Regexes {
  datatype Regex =
    | One(accepts: char -> bool)
    | Cat(first: Regex, second: Regex)
    | Opt(body: Regex)
    | Star(body: Regex)

  /** The whole of `s` matches. */
  ghost predicate Matches(r: Regex, s: string)
    decreases |s|, r
  {
    match r
    case One(accepts) => |s| == 1 && accepts(s[0])
    case Cat(first, second) => exists i :: 0 <= i <= |s| && Matches(first, s[..i]) && Matches(second, s[i..])
    case Opt(body) => s == [] || Matches(body, s)
    case Star(body) => s == [] || exists i :: 0 < i <= |s| && Matches(body, s[..i]) && Matches(Star(body), s[i..])
  }

  lemma OneMeans(accepts: char -> bool, s: string)
    ensures Matches(One(accepts), s) <==> |s| == 1 && accepts(s[0])
  {
  }

  lemma CatMeans(first: Regex, second: Regex, s: string)
    ensures Matches(Cat(first, second), s) <==>
              exists i :: 0 <= i <= |s| && Matches(first, s[..i]) && Matches(second, s[i..])
  {
  }

  lemma OptMeans(body: Regex, s: string)
    ensures Matches(Opt(body), s) <==> s == [] || Matches(body, s)
  {
  }

  lemma StarMeans(body: Regex, s: string)
    ensures Matches(Star(body), s) <==>
              s == [] || exists i :: 0 < i <= |s| && Matches(body, s[..i]) && Matches(Star(body), s[i..])
  {
  }

  /** Repeating a single-character expression. */
  lemma {:induction false} StarOfOne(accepts: char -> bool, s: string)
    ensures Matches(Star(One(accepts)), s) <==> forall k :: 0 <= k < |s| ==> accepts(s[k])
  {
    if s != [] {
      StarOfOne(accepts, s[1..]);
      assert s[..1][0] == s[0];
      StarMeans(One(accepts), s);
      if forall k :: 0 <= k < |s| ==> accepts(s[k]) {
        OneMeans(accepts, s[..1]);
        assert Matches(One(accepts), s[..1]) && Matches(Star(One(accepts)), s[1..]);
      }
      if i :| 0 < i <= |s| && Matches(One(accepts), s[..i]) && Matches(Star(One(accepts)), s[i..]) {
        OneMeans(accepts, s[..i]);
        forall k | 0 <= k < |s| ensures accepts(s[k]) {
          if k > 0 { assert s[1..][k - 1] == s[k]; }
        }
      }
    }
  }
}
