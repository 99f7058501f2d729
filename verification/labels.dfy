/**
 * The client labels ("emails") under which keys are registered on a panel
 * inbound, and the number of days a plan grants.
 */
module Labels {
  import opened Text

  /** A plan of `m` months grants `m * 30` days. */
  const DAYS_PER_MONTH: int := 30

  /** The host name as it appears in a label: spaces removed, lower-cased. */
  function HostSlug(hostName: string): (r: string)
    ensures forall i | 0 <= i < |r| :: r[i] != ' ' && !('A' <= r[i] <= 'Z')
    ensures |r| <= |hostName|
  {
    Lower(RemoveSpaces(hostName))
  }

  /** `user{id}-key{n}@{slug}.bot`, the label of a user's n-th paid key. */
  function KeyLabel(userId: int, keyNumber: int, hostName: string): (r: string)
    ensures StartsWith(r, "user" + IntToDecimal(userId) + "-key" + IntToDecimal(keyNumber) + "@")
    ensures var suffix := HostSlug(hostName) + ".bot"; |suffix| <= |r| && r[|r| - |suffix|..] == suffix
  {
    "user" + IntToDecimal(userId) + "-key" + IntToDecimal(keyNumber) + "@" + HostSlug(hostName) + ".bot"
  }

  /** `user{id}-trial@{slug}.bot`, the label of a user's trial key. */
  function TrialLabel(userId: int, hostName: string): (r: string)
    ensures StartsWith(r, "user" + IntToDecimal(userId) + "-trial@")
    ensures var suffix := HostSlug(hostName) + ".bot"; |suffix| <= |r| && r[|r| - |suffix|..] == suffix
  {
    "user" + IntToDecimal(userId) + "-trial@" + HostSlug(hostName) + ".bot"
  }

  /** Text without spaces loses nothing to `replace(' ', '')`. */
  lemma {:induction false} RemoveSpacesOfSpaceless(s: string)
    requires forall i | 0 <= i < |s| :: s[i] != ' '
    ensures RemoveSpaces(s) == s
  {
    if s != [] {
      RemoveSpacesOfSpaceless(s[1..]);
    }
  }

  /** A slug has no spaces and no upper-case letters, so it is its own slug. */
  lemma HostSlugNormal(hostName: string)
    ensures var s := HostSlug(hostName);
            (forall i | 0 <= i < |s| :: s[i] != ' ' && !('A' <= s[i] <= 'Z')) && HostSlug(s) == s
  {
    var s := HostSlug(hostName);
    RemoveSpacesOfSpaceless(s);
    assert Lower(s) == s;
  }

  /**
   * Host names differing only in a space or in letter case have the same slug,
   * so a user's key on either gets the same label.
   */
  lemma HostSlugIgnoresSpaceAndCase(a: string, b: string, hostName: string)
    ensures HostSlug(a + " " + b) == HostSlug(a + b)
    ensures HostSlug(Lower(hostName)) == HostSlug(hostName)
    ensures forall userId, keyNumber :: KeyLabel(userId, keyNumber, a + " " + b) == KeyLabel(userId, keyNumber, a + b)
  {
    RemoveSpacesConcat(a + " ", b);
    RemoveSpacesConcat(a, " ");
    RemoveSpacesConcat(a, b);
    assert RemoveSpaces(" ") == [];
    RemoveSpacesLower(hostName);
    LowerIdempotent(RemoveSpaces(hostName));
  }

  /** The days a plan grants; they give back its months. */
  function PlanDays(months: int): (days: int)
    ensures days % DAYS_PER_MONTH == 0 && days / DAYS_PER_MONTH == months
  {
    months * DAYS_PER_MONTH
  }

  predicate Free(s: string, c: char)
  {
    forall i | 0 <= i < |s| :: s[i] != c
  }

  /** Two strings that each run up to their first `c` agree on what comes before and after it. */
  lemma SplitAtFirst(a1: string, x1: string, a2: string, x2: string, c: char)
    requires Free(a1, c) && Free(a2, c)
    requires a1 + [c] + x1 == a2 + [c] + x2
    ensures a1 == a2 && x1 == x2
  {
    var s1, s2 := a1 + [c] + x1, a2 + [c] + x2;
    assert s1[|a1|] == c && s2[|a2|] == c;
    assert |a1| == |a2|;
    assert a1 == s1[..|a1|] && a2 == s2[..|a2|];
    assert x1 == s1[|a1| + 1..] && x2 == s2[|a2| + 1..];
  }

  /** Strings whose first `c1` or `c2` is a different one of the two differ. */
  lemma FirstMarkDiffers(a1: string, x1: string, a2: string, x2: string, c1: char, c2: char)
    requires c1 != c2
    requires Free(a1, c1) && Free(a1, c2) && Free(a2, c1) && Free(a2, c2)
    ensures a1 + [c1] + x1 != a2 + [c2] + x2
  {
    var s1, s2 := a1 + [c1] + x1, a2 + [c2] + x2;
    if |a1| < |a2| {
      assert s1[|a1|] == c1 && s2[|a1|] == a2[|a1|];
    } else if |a2| < |a1| {
      assert s2[|a2|] == c2 && s1[|a2|] == a1[|a2|];
    } else {
      assert s1[|a1|] == c1 && s2[|a1|] == c2;
    }
  }

  lemma DecimalFree(n: int)
    ensures Free(IntToDecimal(n), 'k') && Free(IntToDecimal(n), 't') && Free(IntToDecimal(n), '@')
  {
  }

  /** The part of a label before the `k` of `-key` or the `t` of `-trial`. */
  function Stem(userId: int): string
  {
    "user" + IntToDecimal(userId) + "-"
  }

  lemma StemFree(userId: int)
    ensures Free(Stem(userId), 'k') && Free(Stem(userId), 't')
  {
    DecimalFree(userId);
  }

  lemma KeyLabelShape(userId: int, keyNumber: int, hostName: string)
    ensures KeyLabel(userId, keyNumber, hostName) == Stem(userId) + ['k'] + KeyTail(keyNumber, hostName)
  {
  }

  lemma TrialLabelShape(userId: int, hostName: string)
    ensures TrialLabel(userId, hostName) == Stem(userId) + ['t'] + ("rial@" + HostSlug(hostName) + ".bot")
  {
  }

  /** Equal stems come from the same user id. */
  lemma StemInjective(u1: int, u2: int)
    requires Stem(u1) == Stem(u2)
    ensures u1 == u2
  {
    assert IntToDecimal(u1) == Stem(u1)[4..|Stem(u1)| - 1];
    assert IntToDecimal(u2) == Stem(u2)[4..|Stem(u2)| - 1];
    DecimalInjective(u1, u2);
  }

  /** The part of a key label after the `k` of `-key`. */
  function KeyTail(keyNumber: int, hostName: string): string
  {
    "ey" + (IntToDecimal(keyNumber) + ['@'] + (HostSlug(hostName) + ".bot"))
  }

  /** Equal tails carry the same key number and the same host slug. */
  lemma KeyTailInjective(n1: int, h1: string, n2: int, h2: string)
    requires KeyTail(n1, h1) == KeyTail(n2, h2)
    ensures n1 == n2 && HostSlug(h1) == HostSlug(h2)
  {
    var t1, t2 := HostSlug(h1) + ".bot", HostSlug(h2) + ".bot";
    CancelPrefix("ey", IntToDecimal(n1) + ['@'] + t1, IntToDecimal(n2) + ['@'] + t2);
    DecimalFree(n1);
    DecimalFree(n2);
    SplitAtFirst(IntToDecimal(n1), t1, IntToDecimal(n2), t2, '@');
    DecimalInjective(n1, n2);
    CancelSuffix(HostSlug(h1), HostSlug(h2), ".bot");
  }

  /** Distinct users, or distinct key numbers, never share a label on a host. */
  lemma KeyLabelInjective(u1: int, n1: int, h1: string, u2: int, n2: int, h2: string)
    requires KeyLabel(u1, n1, h1) == KeyLabel(u2, n2, h2)
    ensures u1 == u2 && n1 == n2 && HostSlug(h1) == HostSlug(h2)
  {
    KeyLabelShape(u1, n1, h1);
    KeyLabelShape(u2, n2, h2);
    StemFree(u1);
    StemFree(u2);
    SplitAtFirst(Stem(u1), KeyTail(n1, h1), Stem(u2), KeyTail(n2, h2), 'k');
    StemInjective(u1, u2);
    KeyTailInjective(n1, h1, n2, h2);
  }

  /** A trial label never coincides with a paid key's label, so a trial never renews a paid key. */
  lemma TrialLabelNotKeyLabel(u1: int, h1: string, u2: int, n2: int, h2: string)
    ensures TrialLabel(u1, h1) != KeyLabel(u2, n2, h2)
  {
    KeyLabelShape(u2, n2, h2);
    TrialLabelShape(u1, h1);
    StemFree(u1);
    StemFree(u2);
    FirstMarkDiffers(Stem(u1), "rial@" + HostSlug(h1) + ".bot",
                     Stem(u2), KeyTail(n2, h2), 't', 'k');
  }
}
