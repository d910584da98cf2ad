/** The passes of the log filter, one after the other. */
module RedactionPasses {
  import opened Options
  import opened Redaction
  import opened RedactionTheorems
  import opened RedactionPanics

  datatype Pass = Pass(needle: string, isAuthorization: bool)

  function RunPasses(passes: seq<Pass>, s: string): Option<string>
    requires forall i :: 0 <= i < |passes| ==> IsNeedle(passes[i].needle)
    decreases |passes|
  {
    if passes == [] then Some(s)
    else
      assert IsNeedle(passes[0].needle);
      match Redact(passes[0].needle, passes[0].isAuthorization, s)
      case None => None
      case Some(t) => RunPasses(passes[1..], t)
  }

  lemma {:induction false} PassesKeepMasked(passes: seq<Pass>, s: string, needle: string)
    requires forall i :: 0 <= i < |passes| ==> IsNeedle(passes[i].needle)
    requires IsNeedle(needle) && IsMasked(needle, s) && RunPasses(passes, s).Some?
    ensures IsMasked(needle, RunPasses(passes, s).value)
    decreases |passes|
  {
    if passes != [] {
      PassMasks(passes[0].needle, passes[0].isAuthorization, s, needle);
      PassesKeepMasked(passes[1..], Redact(passes[0].needle, passes[0].isAuthorization, s).value, needle);
    }
  }

  /** After any list of passes every key of the list is masked, whatever later passes replaced. */
  lemma {:induction false} PassesMaskAllKeys(passes: seq<Pass>, s: string, k: nat)
    requires forall i :: 0 <= i < |passes| ==> IsNeedle(passes[i].needle)
    requires k < |passes| && RunPasses(passes, s).Some?
    ensures IsMasked(passes[k].needle, RunPasses(passes, s).value)
    decreases |passes|
  {
    var t := Redact(passes[0].needle, passes[0].isAuthorization, s).value;
    if k == 0 {
      PassMasks(passes[0].needle, passes[0].isAuthorization, s, passes[0].needle);
      PassesKeepMasked(passes[1..], t, passes[0].needle);
    } else {
      PassesMaskAllKeys(passes[1..], t, k - 1);
    }
  }

  const KEYS := ["api_key", "apikey", "token", "secret", "password", "authorization", "access_token", "refresh_token"]

  /** The passes of `redact_sensitive_values` on text that is not JSON. */
  function KeyPasses(keys: seq<string>): seq<Pass> {
    if keys == [] then []
    else
      var isAuthorization := keys[0] == "authorization";
      [Pass(keys[0] + "=", isAuthorization), Pass(keys[0] + ":", isAuthorization)] + KeyPasses(keys[1..])
  }

  predicate IsKeyWord(key: string) {
    key != "" && forall i :: 0 <= i < |key| ==> IsKeyChar(key[i])
  }

  lemma {:induction false} KeyPassesHaveNeedles(keys: seq<string>)
    requires forall i :: 0 <= i < |keys| ==> IsKeyWord(keys[i])
    ensures forall i :: 0 <= i < |KeyPasses(keys)| ==> IsNeedle(KeyPasses(keys)[i].needle)
    ensures forall i :: 0 <= i < |keys| ==>
              (exists j :: 0 <= j < |KeyPasses(keys)| && KeyPasses(keys)[j].needle == keys[i] + "=")
              && (exists j :: 0 <= j < |KeyPasses(keys)| && KeyPasses(keys)[j].needle == keys[i] + ":")
  {
    if keys != [] {
      KeyPassesHaveNeedles(keys[1..]);
      var rest := KeyPasses(keys[1..]);
      var all := KeyPasses(keys);
      assert IsNeedle(keys[0] + "=") && IsNeedle(keys[0] + ":");
      forall i | 0 <= i < |keys|
        ensures exists j :: 0 <= j < |all| && all[j].needle == keys[i] + "="
        ensures exists j :: 0 <= j < |all| && all[j].needle == keys[i] + ":"
      {
        if i == 0 {
          assert all[0].needle == keys[0] + "=" && all[1].needle == keys[0] + ":";
        } else {
          assert keys[i] == keys[1..][i - 1];
          var j :| 0 <= j < |rest| && rest[j].needle == keys[i] + "=";
          assert all[j + 2] == rest[j];
          var j' :| 0 <= j' < |rest| && rest[j'].needle == keys[i] + ":";
          assert all[j' + 2] == rest[j'];
        }
      }
    }
  }

  lemma KeysAreKeyWords()
    ensures forall i :: 0 <= i < |KEYS| ==> IsKeyWord(KEYS[i])
    ensures IsNeedle(BEARER)
  {
  }

  function RedactSensitiveText(s: string): Option<string> {
    KeysAreKeyWords();
    KeyPassesHaveNeedles(KEYS);
    RunPasses(KeyPasses(KEYS) + [Pass(BEARER, false)], s)
  }

  lemma {:induction false} PassesKeepOneByteSpaces(passes: seq<Pass>, s: string)
    requires forall i :: 0 <= i < |passes| ==> IsNeedle(passes[i].needle)
    requires HasOneByteSpaces(s)
    ensures RunPasses(passes, s).Some? && HasOneByteSpaces(RunPasses(passes, s).value)
    decreases |passes|
  {
    if passes != [] {
      assert IsNeedle(passes[0].needle);
      PassKeepsOneByteSpaces(passes[0].needle, passes[0].isAuthorization, s);
      PassesKeepOneByteSpaces(passes[1..], Redact(passes[0].needle, passes[0].isAuthorization, s).value);
    }
  }

  /** In the sanitized text every sensitive key and every "bearer " is masked, all at once. No pass
      panics on a text whose whitespace is ASCII. */
  lemma {:induction false} NoKeyIsFollowedByASecret(s: string, k: nat)
    requires k < |KEYS|
    ensures HasOneByteSpaces(s) ==> RedactSensitiveText(s).Some?
    ensures RedactSensitiveText(s).Some? ==>
              var t := RedactSensitiveText(s).value;
              IsMasked(KEYS[k] + "=", t) && IsMasked(KEYS[k] + ":", t) && IsMasked(BEARER, t)
  {
    KeysAreKeyWords();
    KeyPassesHaveNeedles(KEYS);
    var passes := KeyPasses(KEYS) + [Pass(BEARER, false)];
    if HasOneByteSpaces(s) {
      PassesKeepOneByteSpaces(passes, s);
    }
    if RedactSensitiveText(s).Some? {
      SanitizedTextIsMasked(s, k);
    }
  }

  lemma {:induction false} SanitizedTextIsMasked(s: string, k: nat)
    requires k < |KEYS| && RedactSensitiveText(s).Some?
    ensures var t := RedactSensitiveText(s).value;
            IsMasked(KEYS[k] + "=", t) && IsMasked(KEYS[k] + ":", t) && IsMasked(BEARER, t)
  {
    KeysAreKeyWords();
    KeyPassesHaveNeedles(KEYS);
    AllKeysAreMasked(KEYS, Pass(BEARER, false), s, k);
  }

  lemma {:induction false} AllKeysAreMasked(keys: seq<string>, last: Pass, s: string, k: nat)
    requires (forall i :: 0 <= i < |keys| ==> IsKeyWord(keys[i])) && IsNeedle(last.needle) && k < |keys|
    requires forall i :: 0 <= i < |KeyPasses(keys)| ==> IsNeedle(KeyPasses(keys)[i].needle)
    requires RunPasses(KeyPasses(keys) + [last], s).Some?
    ensures var t := RunPasses(KeyPasses(keys) + [last], s).value;
            IsMasked(keys[k] + "=", t) && IsMasked(keys[k] + ":", t) && IsMasked(last.needle, t)
  {
    KeyPassesHaveNeedles(keys);
    var first := KeyPasses(keys);
    var passes := first + [last];
    var i :| 0 <= i < |first| && first[i].needle == keys[k] + "=";
    var j :| 0 <= j < |first| && first[j].needle == keys[k] + ":";
    assert passes[i] == first[i] && passes[j] == first[j] && passes[|first|] == last;
    PassesMaskAllKeys(passes, s, i);
    PassesMaskAllKeys(passes, s, j);
    PassesMaskAllKeys(passes, s, |first|);
  }
}
