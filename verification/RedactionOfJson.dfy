/** Masking log text that is JSON: by key, at every depth. */
module RedactionOfJson {
  import opened Options
  import opened JsonValues
  import opened Redaction
  import opened RedactionTheorems
  import opened RedactionPanics
  import opened RedactionPasses

  predicate Contains(s: string, part: string) {
    exists i :: 0 <= i <= |s| && part <= s[i..]
  }

  predicate IsSensitiveKey(key: string) {
    exists k :: 0 <= k < |KEYS| && Contains(Lower(key), KEYS[k])
  }

  /** `redact_json_value` */
  function RedactJson(value: Json): Json {
    match value
    case Obj(fields) =>
      Obj(map key | key in fields :: if IsSensitiveKey(key) then Str(MARKER) else RedactJson(fields[key]))
    case Arr(items) => Arr(seq(|items|, i requires 0 <= i < |items| => RedactJson(items[i])))
    case _ => value
  }

  /** `redact_sensitive_values`; None stands for a panic. */
  function RedactSensitiveValues(json: Codec, text: string): Option<string> {
    match json.parse(text)
    case Some(value) => Some(json.render(RedactJson(value)))
    case None => RedactSensitiveText(text)
  }

  // ---------------------------------------------------------------------------------------------
  // What is at a place of the value before and after.

  datatype Step = Field(key: string) | Index(i: nat)

  function Child(value: Json, step: Step): (child: Option<Json>)
    ensures child.Some? ==> child.value < value
  {
    match step
    case Field(key) => Get(value, key)
    case Index(i) => if value.Arr? && i < |value.items| then Some(value.items[i]) else None
  }

  function At(value: Json, path: seq<Step>): Option<Json> {
    if path == [] then Some(value)
    else
      match Child(value, path[0])
      case None => None
      case Some(child) => At(child, path[1..])
  }

  predicate IsSecret(step: Step) {
    step.Field? && IsSensitiveKey(step.key)
  }

  predicate IsOpen(path: seq<Step>) {
    forall k :: 0 <= k < |path| ==> !IsSecret(path[k])
  }

  lemma {:induction false} ChildOfRedacted(value: Json, step: Step)
    ensures var child := Child(value, step);
            Child(RedactJson(value), step)
            == if child.None? then None else Some(if IsSecret(step) then Str(MARKER) else RedactJson(child.value))
  {
  }

  /** Along keys that are not sensitive, every place holds what it held, masked inside; nothing is
      added, dropped or moved. */
  lemma {:induction false} OpenPlacesStay(value: Json, path: seq<Step>)
    requires IsOpen(path)
    ensures var there := At(value, path);
            At(RedactJson(value), path) == if there.None? then None else Some(RedactJson(there.value))
  {
    if path != [] {
      assert !IsSecret(path[0]);
      ChildOfRedacted(value, path[0]);
      if Child(value, path[0]).Some? {
        assert forall k :: 0 <= k < |path[1..]| ==> path[1..][k] == path[k + 1];
        OpenPlacesStay(Child(value, path[0]).value, path[1..]);
      }
    }
  }

  /** Under a sensitive key there is the marker and nothing else, whatever was there. */
  lemma {:induction false} SecretPlacesAreMasked(value: Json, path: seq<Step>, key: string, below: seq<Step>)
    requires IsOpen(path) && IsSensitiveKey(key)
    ensures At(RedactJson(value), path + [Field(key)] + below)
         == if At(value, path + [Field(key)]).Some? && below == [] then Some(Str(MARKER)) else None
  {
    var there := At(value, path);
    OpenPlacesStay(value, path);
    AtOfConcat(RedactJson(value), path, [Field(key)] + below);
    AtOfConcat(value, path, [Field(key)]);
    assert path + ([Field(key)] + below) == path + [Field(key)] + below;
    if there.Some? {
      ChildOfRedacted(there.value, Field(key));
      assert ([Field(key)] + below)[1..] == below && [Field(key)][1..] == [];
      NothingIsInAString(MARKER, below);
    }
  }

  lemma {:induction false} NothingIsInAString(text: string, path: seq<Step>)
    ensures At(Str(text), path) == if path == [] then Some(Str(text)) else None
  {
    if path != [] {
      assert Child(Str(text), path[0]).None?;
    }
  }

  lemma {:induction false} AtOfConcat(value: Json, first: seq<Step>, second: seq<Step>)
    ensures At(value, first + second) == match At(value, first) case Some(there) => At(there, second) case None => None
  {
    if first == [] {
      assert first + second == second;
    } else {
      assert (first + second)[1..] == first[1..] + second;
      var child := Child(value, first[0]);
      if child.Some? {
        AtOfConcat(child.value, first[1..], second);
      }
    }
  }

  // ---------------------------------------------------------------------------------------------
  // The text that is written to the log.

  /** The library reads back the one value that is printed here. */
  predicate ReadsBack(json: Codec, value: Json) {
    json.parse(json.render(RedactJson(value))) == Some(RedactJson(value))
  }

  lemma {:induction false} MaskingTwiceIsOnce(value: Json)
    ensures RedactJson(RedactJson(value)) == RedactJson(value)
  {
    match value
    case Obj(fields) =>
      forall key | key in fields
        ensures RedactJson(RedactJson(fields[key])) == RedactJson(fields[key])
      {
        MaskingTwiceIsOnce(fields[key]);
      }
      assert RedactJson(RedactJson(value)).fields == RedactJson(value).fields;
    case Arr(items) =>
      forall i | 0 <= i < |items|
        ensures RedactJson(RedactJson(items[i])) == RedactJson(items[i])
      {
        MaskingTwiceIsOnce(items[i]);
      }
      assert RedactJson(RedactJson(value)).items == RedactJson(value).items;
    case _ =>
  }

  /** Log text that is JSON never panics. Whoever reads the written text finds the marker and nothing
      else under every sensitive key that the given text had, what was there anywhere else, masked inside,
      and nothing more; and sanitizing the written text again changes nothing. */
  lemma {:induction false} WrittenJsonIsMasked(json: Codec, text: string, value: Json)
    requires json.parse(text) == Some(value) && ReadsBack(json, value)
    ensures var written := RedactSensitiveValues(json, text);
            && written.Some?
            && RedactSensitiveValues(json, written.value) == written
            && var seen := json.parse(written.value);
               && seen.Some?
               && (forall path, key, below :: IsOpen(path) && IsSensitiveKey(key) ==>
                     At(seen.value, path + [Field(key)] + below)
                     == if At(value, path + [Field(key)]).Some? && below == [] then Some(Str(MARKER)) else None)
               && (forall path :: IsOpen(path) ==>
                     At(seen.value, path)
                     == if At(value, path).None? then None else Some(RedactJson(At(value, path).value)))
  {
    MaskingTwiceIsOnce(value);
    forall path, key, below | IsOpen(path) && IsSensitiveKey(key)
      ensures At(RedactJson(value), path + [Field(key)] + below)
           == if At(value, path + [Field(key)]).Some? && below == [] then Some(Str(MARKER)) else None
    {
      SecretPlacesAreMasked(value, path, key, below);
    }
    forall path | IsOpen(path)
      ensures At(RedactJson(value), path)
           == if At(value, path).None? then None else Some(RedactJson(At(value, path).value))
    {
      OpenPlacesStay(value, path);
    }
  }

  /** Log text that is not JSON: every sensitive key and every "bearer " is masked in what is written. */
  lemma {:induction false} WrittenTextIsMasked(json: Codec, text: string, k: nat)
    requires json.parse(text) == None && k < |KEYS|
    ensures var written := RedactSensitiveValues(json, text);
            && (HasOneByteSpaces(text) ==> written.Some?)
            && (written.Some? ==>
                  && IsMasked(KEYS[k] + "=", written.value) && IsMasked(KEYS[k] + ":", written.value)
                  && IsMasked(BEARER, written.value))
  {
    NoKeyIsFollowedByASecret(text, k);
  }
}
