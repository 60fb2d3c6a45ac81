/** Normalised provider payloads and the conditions a gate can put on them. */
module Conditions {
  import opened Texts
  import opened Collections
  import opened Options

  /** A decoded JSON value. A number is a real. */
  datatype Json =
    | Null | Bool(flag: bool) | Num(number: real) | Str(text: string)
    | Arr(items: seq<Json>) | Obj(fields: map<string, Json>)

  // ---- looking a value up by a dotted path ----

  function Follow(v: Json, parts: seq<string>): Option<Json>
    decreases |parts|
  {
    if |parts| == 0 then Some(v)
    else if !v.Obj? || parts[0] !in v.fields then None
    else Follow(v.fields[parts[0]], parts[1..])
  }

  /** The delivery's status, or a field of its payload. */
  function ConditionLookup(key: string, status: string, payload: Json): Option<Json> {
    if key == "status" then Some(Str(status)) else Follow(payload, Split(key, '.'))
  }

  /** Only scalars can be equal. */
  predicate ConditionEqual(actual: Json, want: Json) {
    match want
    case Str(s) => actual == Str(s)
    case Num(n) => actual == Num(n)
    case Bool(b) => actual == Bool(b)
    case Null => actual == Null
    case _ => false
  }

  predicate Holds(key: string, want: Json, status: string, payload: Json) {
    ConditionLookup(key, status, payload).Some? && ConditionEqual(ConditionLookup(key, status, payload).value, want)
  }

  predicate HasPredicate(cond: Json) { cond.Obj? && cond.fields != map[] }

  predicate Satisfied(cond: Json, status: string, payload: Json) {
    HasPredicate(cond) && forall k :: k in cond.fields ==> Holds(k, cond.fields[k], status, payload)
  }

  /** The entries are visited in no particular order, stopping at the first that fails. */
  method EvaluateExpectedCondition(cond: Json, status: string, payload: Json)
    returns (satisfied: bool, hasPredicate: bool)
    ensures hasPredicate == HasPredicate(cond) && satisfied == Satisfied(cond, status, payload)
  {
    if !cond.Obj? || |cond.fields| == 0 { return false, false; }
    assert exists k :: k in cond.fields;
    var rest := cond.fields.Keys;
    while rest != {}
      invariant rest <= cond.fields.Keys
      invariant forall k :: k in cond.fields && k !in rest ==> Holds(k, cond.fields[k], status, payload)
      decreases rest
    {
      var k := AnyOf(rest);
      rest := rest - {k};
      var actual := ConditionLookup(k, status, payload);
      if actual.None? || !ConditionEqual(actual.value, cond.fields[k]) { return false, true; }
    }
    return true, true;
  }

  // ---- what a condition says ----

  /** The values on the way from w, along a path, down to v: an object with the next key at every step. */
  ghost predicate Leads(way: seq<Json>, parts: seq<string>, w: Json, v: Json) {
    |way| == |parts| + 1 && way[0] == w && way[|parts|] == v &&
    forall i :: 0 <= i < |parts| ==> way[i].Obj? && parts[i] in way[i].fields && way[i].fields[parts[i]] == way[i + 1]
  }

  /** A path leads to a value exactly if there is such a way. */
  lemma {:induction false} FollowsExactly(w: Json, parts: seq<string>, v: Json)
    ensures Follow(w, parts) == Some(v) <==> exists way :: Leads(way, parts, w, v)
    decreases |parts|
  {
    if |parts| == 0 {
      assert Follow(w, parts) == Some(v) ==> Leads([w], parts, w, v);
    } else {
      if w.Obj? && parts[0] in w.fields { FollowsExactly(w.fields[parts[0]], parts[1..], v); }
      if Follow(w, parts) == Some(v) {
        var rest :| Leads(rest, parts[1..], w.fields[parts[0]], v);
        assert Leads([w] + rest, parts, w, v);
      }
      if way: seq<Json> :| Leads(way, parts, w, v) { assert Leads(way[1..], parts[1..], w.fields[parts[0]], v); }
    }
  }

  /** An entry of a condition holds exactly if its dotted key leads to its own value in the payload, or is "status" and
      the value the delivered status; and the value is no list or object. */
  lemma HoldsExactly(key: string, want: Json, status: string, payload: Json)
    ensures Holds(key, want, status, payload) <==>
            !want.Arr? && !want.Obj? &&
            if key == "status" then want == Str(status) else exists way :: Leads(way, Split(key, '.'), payload, want)
  {
    EqualExactly(ConditionLookup(key, status, payload), want);
    hide Split, ConditionEqual;
    FollowsExactly(payload, Split(key, '.'), want);
  }

  lemma EqualExactly(actual: Option<Json>, want: Json)
    ensures actual.Some? && ConditionEqual(actual.value, want) <==> actual == Some(want) && !want.Arr? && !want.Obj?
  {
  }

  // ---- payloads ----

  const MAX_STRING := 256
  const MAX_URL := 2048
  const MAX_KEY := 128
  const MAX_ENTRIES := 64
  const MAX_NUMBER := 1000000000000000.0

  const CONCLUSIONS: set<string> := {
    "success", "failure", "neutral", "skipped", "cancelled", "timed_out", "action_required", "startup_failure", "stale"
  }

  /** `secrets` are the strings with the shape of a credential. */
  predicate GoodString(v: Json, secrets: set<string>) {
    v.Str? && 0 < |v.text| <= MAX_STRING && !HasControlChars(v.text) && v.text !in secrets
  }

  predicate GoodUrl(v: Json, secrets: set<string>) {
    && v.Str? && |v.text| <= MAX_URL && !HasControlChars(v.text)
    && (forall i :: 0 <= i < |v.text| ==> v.text[i] != ' ' && v.text[i] != '@')
    && (StartsWith(v.text, "http://") || StartsWith(v.text, "https://")) && v.text !in secrets
  }

  predicate GoodNumber(v: Json) { v.Num? && v.number == v.number.Floor as real && 0.0 <= v.number <= MAX_NUMBER }

  predicate GoodConclusion(v: Json) { v.Str? && v.text in CONCLUSIONS }

  predicate GoodChecks(v: Json, secrets: set<string>) {
    && v.Obj? && |v.fields| <= MAX_ENTRIES
    && forall name :: name in v.fields ==>
         0 < |name| <= MAX_KEY && !HasControlChars(name) && name !in secrets && GoodConclusion(v.fields[name])
  }

  predicate GoodField(key: string, v: Json, secrets: set<string>) {
    if key == "repository" || key == "head_sha" || key == "check_name" then GoodString(v, secrets)
    else if key == "url" then GoodUrl(v, secrets)
    else if key == "pull_request" || key == "check_run_id" || key == "started_at" || key == "completed_at" then
      GoodNumber(v)
    else if key == "conclusion" then GoodConclusion(v)
    else if key == "required_checks" then GoodChecks(v, secrets)
    else false
  }

  predicate Normalized(v: Json, secrets: set<string>) {
    v.Obj? && |v.fields| <= MAX_ENTRIES && forall k :: k in v.fields ==> GoodField(k, v.fields[k], secrets)
  }

  predicate CleanText(s: string) { 0 < |s| <= 2048 && forall i :: 0 <= i < |s| ==> s[i] >= ' ' && s[i] != 127 as char }

  /** A bounded text that is no secret but a conclusion of that name, or a bounded whole number. */
  predicate CleanScalar(v: Json, secrets: set<string>) {
    match v
    case Str(s) => CleanText(s) && (s !in secrets || s in CONCLUSIONS)
    case Num(n) => n.Floor as real == n && 0.0 <= n <= 1000000000000000.0
    case _ => false
  }

  lemma ConclusionIsClean(s: string)
    requires s in CONCLUSIONS
    ensures CleanText(s)
  {
  }

  lemma FieldIsClean(key: string, v: Json, secrets: set<string>)
    requires GoodField(key, v, secrets)
    ensures if key == "required_checks" then GoodChecks(v, secrets) else CleanScalar(v, secrets)
  {
    if v.Str? && v.text in CONCLUSIONS { ConclusionIsClean(v.text); }
    hide CONCLUSIONS;
  }

  /** At any depth a normalised payload has only clean texts, clean numbers and small objects; the only object in it is
      the one of its required checks. */
  lemma NormalizedIsClean(p: Json, secrets: set<string>, way: seq<Json>, parts: seq<string>, v: Json)
    requires Normalized(p, secrets) && Leads(way, parts, p, v)
    ensures if v.Obj? then |v.fields| <= 64 && (parts == [] || parts == ["required_checks"])
            else CleanScalar(v, secrets)
    ensures |parts| <= 2 && (|parts| == 2 ==> parts[0] == "required_checks" && v.Str? && v.text in CONCLUSIONS)
  {
    hide CONCLUSIONS, CleanText;
    if |parts| > 0 {
      assert GoodField(parts[0], way[1], secrets);
      FieldIsClean(parts[0], way[1], secrets);
      hide GoodField;
      if |parts| > 1 {
        assert GoodChecks(way[1], secrets) && GoodConclusion(way[2]);
        ConclusionIsClean(way[2].text);
      } else {
        assert parts == [parts[0]];
      }
    }
  }

  function Lower(s: string): (r: string)
    ensures |r| == |s|
  {
    seq(|s|, i requires 0 <= i < |s| => if 'A' <= s[i] <= 'Z' then (s[i] as int + 32) as char else s[i])
  }

  predicate NonTerminal(status: string) {
    Lower(status) in {"queued", "pending", "in_progress", "running", "started", "waiting"}
  }
}
