/** The string extension used to build certificate file names. */
module Extensions {
  import opened Wrappers
  import opened Platform

  /**
   * s.EnsureEndsWith(ending): s unchanged when it already ends with `ending`, otherwise
   * s followed by `ending`; a null s throws ArgumentNullException("s").
   */
  function EnsureEndsWith(s: Option<string>, ending: string): (r: Result<string, Exception>)
    ensures s.None? <==> r.Err?
    ensures s.None? ==> r.error == ArgumentNull("s")
    ensures s.Some? ==> EndsWith(r.value, ending) && s.value <= r.value
    ensures s.Some? ==> |r.value| == |s.value| || |r.value| == |s.value| + |ending|
    ensures s.Some? && EndsWith(s.value, ending) ==> r.value == s.value
  {
    match s
    case None => Err(ArgumentNull("s"))
    case Some(str) =>
      if !EndsWith(str, ending) then
        var r := str + ending;
        assert r[|r| - |ending|..] == ending;
        Ok(r)
      else
        Ok(str)
  }

  /**
   * The contract above pins the result down: when s lacks the ending, the only string that
   * extends s by nothing or by |ending| characters and ends with `ending` is s + ending.
   */
  lemma {:induction false} EnsureEndsWithAppendsWhenMissing(s: string, ending: string, t: string)
    requires !EndsWith(s, ending)
    requires EndsWith(t, ending) && s <= t
    requires |t| == |s| || |t| == |s| + |ending|
    ensures t == s + ending
  {
    if |t| == |s| {
      assert false;  // t would be s, which does not end with the ending
    } else {
      assert t[..|s|] == s;
      assert t[|s|..] == ending;
      assert t == t[..|s|] + t[|s|..];
    }
  }

  /** Applying EnsureEndsWith a second time with the same ending changes nothing. */
  lemma EnsureEndsWithIdempotent(s: string, ending: string)
    ensures EnsureEndsWith(Some(EnsureEndsWith(Some(s), ending).value), ending) == EnsureEndsWith(Some(s), ending)
  {
  }
}
