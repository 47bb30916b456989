/** Shape limits on a request payload: body size, output caps, and the number of choices. */
module RequestShape {
  import opened Options
  import opened AdmissionConfig

  /** A parsed JSON value; `JNonFinite` stands for the NaN and Infinity literals that Python's
      parser accepts. */
  datatype Json =
    | JNull
    | JBool(bit: bool)
    | JInt(number: int)
    | JReal(fraction: real)
    | JNonFinite
    | JString(text: string)
    | JList(items: seq<Json>)
    | JObject(fields: map<string, Json>)

  type Payload = map<string, Json>

  datatype ShapeReason = BodyTooLarge | OutputTokens | NGreaterThanOne

  datatype Checked = Accepted(payload: Payload) | Refused(reason: ShapeReason)

  const CAP_KEYS: seq<string> := ["max_tokens", "max_output_tokens"]

  /** A positive integer; a boolean is not an integer here. */
  predicate IsCap(value: Json) {
    value.JInt? && value.number > 0
  }

  /** Equal to 1 in Python's terms, where `1.0` and `True` are. */
  predicate EqualsOne(value: Json) {
    value == JInt(1) || value == JReal(1.0) || value == JBool(true)
  }

  predicate HasCap(payload: Payload) {
    exists key <- CAP_KEYS :: key in payload
  }

  /** Every cap that is present is a positive integer, at most `limit`. */
  predicate CapsWithin(payload: Payload, limit: int) {
    forall key <- CAP_KEYS | key in payload :: IsCap(payload[key]) && payload[key].number <= limit
  }

  predicate CapsValid(payload: Payload) {
    forall key <- CAP_KEYS | key in payload :: IsCap(payload[key])
  }

  predicate OneChoice(payload: Payload) {
    "n" in payload ==> EqualsOne(payload["n"])
  }

  function Max(values: seq<int>): (m: int)
    requires values != []
    ensures m in values && forall v <- values :: v <= m
  {
    if |values| == 1 then values[0]
    else
      var rest := Max(values[1..]);
      assert forall v <- values :: v == values[0] || v in values[1..];
      if rest > values[0] then rest else values[0]
  }

  /** Whether a cap is present, and the highest cap if all that are present are valid. */
  method ExtractValidMaxOutputTokens(payload: Payload) returns (present: bool, highest: Option<int>)
    ensures present <==> HasCap(payload)
    ensures highest.Some? <==> HasCap(payload) && CapsValid(payload)
    ensures highest.Some? ==> forall limit :: CapsWithin(payload, limit) <==> highest.value <= limit
  {
    var values: seq<int> := [];
    for i := 0 to |CAP_KEYS|
      invariant forall k | 0 <= k < i && CAP_KEYS[k] in payload ::
                  IsCap(payload[CAP_KEYS[k]]) && payload[CAP_KEYS[k]].number in values
      invariant forall v <- values :: exists key <- CAP_KEYS :: key in payload && payload[key] == JInt(v)
      invariant values == [] ==> forall k | 0 <= k < i :: CAP_KEYS[k] !in payload
    {
      var key := CAP_KEYS[i];
      if key !in payload {
        continue;
      }
      var value := payload[key];
      if !IsCap(value) {
        return true, None;
      }
      values := values + [value.number];
    }
    if values == [] {
      return false, None;
    }
    present, highest := true, Some(Max(values));
    forall limit | CapsWithin(payload, limit) ensures highest.value <= limit {
      assert highest.value in values;
    }
  }

  /** What the check comes to, in the order in which it reports problems. */
  function Shape(cfg: Admission, model: string, endpoint: string, bodySize: int, payload: Payload): Checked {
    if !cfg.enabled || model !in cfg.shapeLimits then Accepted(payload)
    else
      var limit := cfg.shapeLimits[model];
      if limit.maxBody.Some? && bodySize > limit.maxBody.value then Refused(BodyTooLarge)
      else if limit.maxOutput.Some? && !CapsWithin(payload, limit.maxOutput.value) then Refused(OutputTokens)
      else if limit.rejectN && !OneChoice(payload) then Refused(NGreaterThanOne)
      else if limit.maxOutput.None? || HasCap(payload) then Accepted(payload)
      else Accepted(payload[OutputKey(endpoint) := JInt(limit.maxOutput.value)])
  }

  function OutputKey(endpoint: string): string {
    if endpoint == "responses" then "max_output_tokens" else "max_tokens"
  }

  lemma HasCapByName(payload: Payload)
    ensures HasCap(payload) <==> "max_tokens" in payload || "max_output_tokens" in payload
  {
    assert CAP_KEYS[0] == "max_tokens" && CAP_KEYS[1] == "max_output_tokens";
  }

  /** The answer is the first violated limit in the order body size, caps, number of choices; without
      a violation the payload is accepted, and completed with a cap if it has none. */
  method CheckRequestShape(cfg: Admission, model: string, endpoint: string, bodySize: int, payload: Payload)
    returns (checked: Checked)
    ensures checked == Shape(cfg, model, endpoint, bodySize, payload)
    ensures !cfg.enabled || model !in cfg.shapeLimits ==> checked == Accepted(payload)
    ensures cfg.enabled && model in cfg.shapeLimits ==>
              var limit := cfg.shapeLimits[model];
              var tooLarge := limit.maxBody.Some? && bodySize > limit.maxBody.value;
              var badCap := limit.maxOutput.Some? && exists key <- CAP_KEYS | key in payload ::
                              !(payload[key].JInt? && 0 < payload[key].number <= limit.maxOutput.value);
              var manyChoices := limit.rejectN && "n" in payload
                                 && payload["n"] !in {JInt(1), JReal(1.0), JBool(true)};
              && (checked == Refused(BodyTooLarge) <==> tooLarge)
              && (checked == Refused(OutputTokens) <==> !tooLarge && badCap)
              && (checked == Refused(NGreaterThanOne) <==> !tooLarge && !badCap && manyChoices)
              && (!tooLarge && !badCap && !manyChoices ==>
                    checked == Accepted(
                                 if limit.maxOutput.None? || "max_tokens" in payload || "max_output_tokens" in payload
                                 then payload
                                 else if endpoint == "responses"
                                 then payload["max_output_tokens" := JInt(limit.maxOutput.value)]
                                 else payload["max_tokens" := JInt(limit.maxOutput.value)]))
  {
    HasCapByName(payload);
    if !cfg.enabled || model !in cfg.shapeLimits {
      return Accepted(payload);
    }
    var limit := cfg.shapeLimits[model];
    if limit.maxBody.Some? && bodySize > limit.maxBody.value {
      return Refused(BodyTooLarge);
    }
    var present, highest := ExtractValidMaxOutputTokens(payload);
    if limit.maxOutput.Some? {
      if highest.None? && present {
        return Refused(OutputTokens);
      }
      if highest.Some? && highest.value > limit.maxOutput.value {
        return Refused(OutputTokens);
      }
    }
    if limit.rejectN && "n" in payload && !EqualsOne(payload["n"]) {
      return Refused(NGreaterThanOne);
    }
    checked := Accepted(payload);
    if limit.maxOutput.Some? && !present {
      checked := Accepted(payload[OutputKey(endpoint) := JInt(limit.maxOutput.value)]);
    }
  }

  // ------------------------------------------------------------------ what a check guarantees

  /** With an output limit configured, an accepted payload carries a cap, every cap it carries is
      a positive integer at most the limit, nothing but caps has changed, and a cap that was
      there before has not changed either. */
  lemma AcceptedIsCapped(cfg: Admission, model: string, endpoint: string, bodySize: int, payload: Payload)
    requires Bounds(cfg) && cfg.enabled
    requires model in cfg.shapeLimits && cfg.shapeLimits[model].maxOutput.Some?
    requires Shape(cfg, model, endpoint, bodySize, payload).Accepted?
    ensures var sent := Shape(cfg, model, endpoint, bodySize, payload).payload;
            && HasCap(sent) && CapsWithin(sent, cfg.shapeLimits[model].maxOutput.value)
            && (forall key <- payload :: key in sent && sent[key] == payload[key])
            && (forall key <- sent | key !in payload :: key in CAP_KEYS)
            && (HasCap(payload) ==> sent == payload)
  {
    if !HasCap(payload) {
      var key := OutputKey(endpoint);
      assert CAP_KEYS[if endpoint == "responses" then 1 else 0] == key;
      assert payload[key := JInt(cfg.shapeLimits[model].maxOutput.value)][key].JInt?;
      assert key in CAP_KEYS;
    }
  }

  /** A checked payload passes the same check again unchanged, whatever endpoint it is for. */
  lemma CheckedOnceIsEnough(
    cfg: Admission, model: string, endpoint: string, other: string, bodySize: int, payload: Payload)
    requires Bounds(cfg) && Shape(cfg, model, endpoint, bodySize, payload).Accepted?
    ensures var sent := Shape(cfg, model, endpoint, bodySize, payload);
            Shape(cfg, model, other, bodySize, sent.payload) == sent
  {
    if cfg.enabled && model in cfg.shapeLimits && cfg.shapeLimits[model].maxOutput.Some? {
      AcceptedIsCapped(cfg, model, endpoint, bodySize, payload);
    }
  }
}
