/**
 * Values the chat handlers recover from user input: the referrer named by a
 * `/start` deep link and the fields packed into inline-button callback data.
 */
module Commands {
  import opened Wrappers
  import opened Text

  /**
   * The referrer of `/start ref_<id>`: the second whitespace-separated word,
   * if it starts with `ref_`, parsed from its second `_`-separated field;
   * anything else (no text, one word, another prefix, a non-integer) names none.
   */
  function StartReferrer(text: Option<string>): (r: Option<int>)
    ensures r.Some? <==>
              && text.Some? && |Words(text.value)| > 1 && StartsWith(Words(text.value)[1], "ref_")
              && var parts := SplitWhere(Words(text.value)[1], {'_'});
                 |parts| > 1 && SignedDigits(Strip(parts[1]))
  {
    if text.None? then None
    else
      var words := Words(text.value);
      if |words| > 1 && StartsWith(words[1], "ref_") then
        var parts := SplitWhere(words[1], {'_'});
        if |parts| > 1 then ParseInt(parts[1]) else None
      else None
  }

  predicate NoWhitespace(s: string)
  {
    forall i | 0 <= i < |s| :: s[i] !in WHITESPACE
  }

  predicate NoUnderscore(s: string)
  {
    forall i | 0 <= i < |s| :: s[i] != '_'
  }

  lemma NoWhitespaceConcat(a: string, b: string)
    requires NoWhitespace(a) && NoWhitespace(b)
    ensures NoWhitespace(a + b)
  {
  }

  /** The argument `ref_<d><tail>`, where the tail is empty or starts a new `_` field, has `d` as its second field. */
  lemma RefArgSplits(d: string, tail: string)
    requires NoUnderscore(d)
    requires tail == [] || tail[0] == '_'
    ensures var parts := SplitWhere("ref_" + d + tail, {'_'});
            |parts| > 1 && parts[1] == d
  {
    assert "ref_" + d + tail == "ref" + ['_'] + (d + tail);
    SplitAfterHead("ref", '_', d + tail, {'_'});
    if tail == [] {
      assert d + tail == d;
      SplitWithoutSeparator(d, {'_'});
    } else {
      assert d + tail == d + ['_'] + tail[1..];
      SplitAfterHead(d, '_', tail[1..], {'_'});
    }
  }

  /** A referral link `cmd ref_<id>_<rest>` names `<id>`, whatever follows the next `_`. */
  lemma StartReferrerOfLink(cmd: string, referrer: int, rest: Option<string>)
    requires cmd != [] && NoWhitespace(cmd)
    requires rest.Some? ==> NoWhitespace(rest.value)
    ensures var arg := "ref_" + IntToDecimal(referrer) + (if rest.Some? then "_" + rest.value else "");
            StartReferrer(Some(cmd + " " + arg)) == Some(referrer)
  {
    var d := IntToDecimal(referrer);
    var tail := if rest.Some? then "_" + rest.value else "";
    var arg := "ref_" + d + tail;
    assert Words(cmd + " " + arg) == [cmd, arg] by {
      NoWhitespaceConcat("ref_", d);
      if rest.Some? {
        NoWhitespaceConcat("_", rest.value);
      }
      NoWhitespaceConcat("ref_" + d, tail);
      WordsOfTwo(cmd, arg);
    }
    assert StartsWith(arg, "ref_") by {
      Seam("ref_", d + tail);
      assert arg == "ref_" + (d + tail);
    }
    assert |SplitWhere(arg, {'_'})| > 1 && SplitWhere(arg, {'_'})[1] == d by {
      RefArgSplits(d, tail);
    }
    ParseIntOfDecimal(referrer);
  }

  /** Python's `callback.data.split("_")[k]`; `None` where Python raises `IndexError`. */
  function CallbackField(data: string, k: nat): Option<string>
  {
    var parts := SplitWhere(data, {'_'});
    if k < |parts| then Some(parts[k]) else None
  }

  /** `int(callback.data.split("_")[2])`, the plan id of `select_plan_`, `pay_yookassa_` and `pay_cryptobot_` buttons. */
  function CallbackPlanId(data: string): (r: Option<int>)
    ensures r.Some? <==> var parts := SplitWhere(data, {'_'});
                         |parts| > 2 && SignedDigits(Strip(parts[2]))
  {
    match CallbackField(data, 2)
    case None => None
    case Some(field) => ParseInt(field)
  }

  lemma Regroup(a: string, b: string, c: string, x: char)
    ensures a + [x] + b + [x] + c == a + [x] + (b + [x] + c)
  {
  }

  lemma CallbackFieldsOf(a: string, b: string, c: string)
    requires NoUnderscore(a) && NoUnderscore(b)
    ensures SplitWhere(a + "_" + b + "_" + c, {'_'}) == [a, b] + SplitWhere(c, {'_'})
  {
    Regroup(a, b, c, '_');
    SplitAfterHead(b, '_', c, {'_'});
    SplitAfterHead(a, '_', b + ['_'] + c, {'_'});
  }

  /** The button `<verb>_<noun>_<planId>` carries `planId` back to its handler. */
  lemma CallbackPlanIdOf(verb: string, noun: string, planId: int)
    requires NoUnderscore(verb) && NoUnderscore(noun)
    ensures CallbackPlanId(verb + "_" + noun + "_" + IntToDecimal(planId)) == Some(planId)
  {
    CallbackFieldsOf(verb, noun, IntToDecimal(planId));
    SplitWithoutSeparator(IntToDecimal(planId), {'_'});
    ParseIntOfDecimal(planId);
  }

  /** The host name the `select_host_` handler reads back, as written: `callback.data.split("_")[2]`. */
  function SelectedHost(data: string): (r: Option<string>)
    ensures r.Some? <==> |SplitWhere(data, {'_'})| > 2
    ensures r.Some? ==> NoUnderscore(r.value)
  {
    CallbackField(data, 2)
  }

  /** A host name containing `_` does not survive the `select_host_` button. */
  lemma SelectedHostTruncates(hostName: string)
    requires !NoUnderscore(hostName)
    ensures SelectedHost("select_host_" + hostName) != Some(hostName)
  {
    CallbackFieldsOf("select", "host", hostName);
  }

  /** What comes back is the host name up to its first `_`: `de_fra` comes back as `de`. */
  lemma SelectedHostIsHead(head: string, tail: string)
    requires NoUnderscore(head)
    ensures SelectedHost("select_host_" + head + "_" + tail) == Some(head)
  {
    assert "select_host_" + head + "_" + tail == "select" + "_" + "host" + "_" + (head + ['_'] + tail);
    CallbackFieldsOf("select", "host", head + ['_'] + tail);
    SplitAfterHead(head, '_', tail, {'_'});
  }

  const SELECT_HOST_PREFIX: string := "select_host_"

  /** The host name of a `select_host_` button, taken as everything after the prefix. */
  function SelectedHostName(data: string): (r: Option<string>)
    ensures r.Some? <==> StartsWith(data, SELECT_HOST_PREFIX)
    ensures r.Some? ==> data == SELECT_HOST_PREFIX + r.value
  {
    if StartsWith(data, SELECT_HOST_PREFIX) then Some(data[|SELECT_HOST_PREFIX|..]) else None
  }

  /** Every host name survives its button, underscores included. */
  lemma SelectedHostNameRoundTrip(hostName: string)
    ensures SelectedHostName(SELECT_HOST_PREFIX + hostName) == Some(hostName)
  {
    var data := SELECT_HOST_PREFIX + hostName;
    assert data[..|SELECT_HOST_PREFIX|] == SELECT_HOST_PREFIX;
    assert data[|SELECT_HOST_PREFIX|..] == hostName;
  }
}
