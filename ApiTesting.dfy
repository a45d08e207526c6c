/**
 * The API test runner of `api_testing_framework.py`: test definitions and
 * their dictionary form, the registry of tests by name, the verdict of one
 * run and the summary counts.  The HTTP exchange is an input: the status
 * code and text of the response, what `jsonschema.validate` made of it, or
 * the exception the request raised.  Setup and cleanup scripts (`exec`),
 * timing and the reports are not modelled.
 */
module ApiTesting {
  import opened Wrappers
  import opened Text
  import opened Json
  import opened Seqs

  datatype ApiTest = ApiTest(
    name: string,
    endpoint: string,
    verb: string,
    headers: Json,
    params: Json,
    body: Json,
    expectedStatus: int,
    expectedSchema: Json,
    expectedContains: seq<string>,
    setupScripts: seq<string>,
    cleanupScripts: seq<string>,
    timeout: int,
    retryCount: int,
    dependencies: seq<string>)

  const DefaultStatus: int := 200
  const DefaultTimeout: int := 30

  /** `APITest(name, endpoint, method)`: the method upper-cased, everything else at its default. */
  function NewTest(name: string, endpoint: string, verb: string): (t: ApiTest)
    ensures t.name == name && t.endpoint == endpoint
    ensures |t.verb| == |verb| && forall i :: 0 <= i < |verb| ==> t.verb[i] == ToUpper(verb[i])
    ensures t.headers == JObj(map[]) && t.params == JObj(map[]) && t.body == JNull
    ensures t.expectedStatus == 200 && t.expectedSchema == JNull && t.expectedContains == []
    ensures t.setupScripts == [] && t.cleanupScripts == [] && t.dependencies == []
    ensures t.timeout == 30 && t.retryCount == 0
  {
    ApiTest(name, endpoint, Upper(verb), JObj(map[]), JObj(map[]), JNull, DefaultStatus, JNull, [], [], [],
            DefaultTimeout, 0, [])
  }

  lemma {:induction false} UpperIdempotent(s: string)
    ensures Upper(Upper(s)) == Upper(s)
  {
    if s != [] {
      UpperIdempotent(s[1..]);
    }
  }

  function ToDict(t: ApiTest): Json {
    JObj(map[
      "name" := JStr(t.name),
      "endpoint" := JStr(t.endpoint),
      "method" := JStr(t.verb),
      "headers" := t.headers,
      "params" := t.params,
      "body" := t.body,
      "expected_status" := JInt(t.expectedStatus),
      "expected_schema" := t.expectedSchema,
      "expected_contains" := Strs(t.expectedContains),
      "setup_scripts" := Strs(t.setupScripts),
      "cleanup_scripts" := Strs(t.cleanupScripts),
      "timeout" := JInt(t.timeout),
      "retry_count" := JInt(t.retryCount),
      "dependencies" := Strs(t.dependencies)])
  }

  /** `data.get(key, default)` for a field holding any value. */
  function GetOr(m: map<string, Json>, key: string, default: Json): Json {
    if key in m then m[key] else default
  }

  /** `data.get(key, default)` for an integer field; `None` when the stored value is not an integer. */
  function GetIntOr(m: map<string, Json>, key: string, default: int): Option<int> {
    if key !in m then Some(default) else if m[key].JInt? then Some(m[key].i) else None
  }

  /** `data.get(key, [])` for a list of strings; `None` when the stored value is not one. */
  function GetStrsOr(m: map<string, Json>, key: string): Option<seq<string>> {
    if key !in m then Some([]) else AsStrs(m[key])
  }

  /**
   * `APITest.from_dict`: name, endpoint and method are required (Python
   * raises `KeyError`), the method goes through the constructor and is
   * upper-cased, every other field falls back to the constructor's default.
   * A value whose type differs from the field's gives `None`.
   */
  function FromDict(j: Json): (r: Option<ApiTest>)
    ensures j.JObj? && ("name" !in j.fields || "endpoint" !in j.fields || "method" !in j.fields) ==> r.None?
    ensures r.Some? ==> j.JObj? && var m := j.fields;
      && GetStr(m, "name") == Some(r.value.name) && GetStr(m, "endpoint") == Some(r.value.endpoint)
      && m["method"].JStr? && r.value.verb == Upper(m["method"].s)
      && r.value.headers == GetOr(m, "headers", JObj(map[])) && r.value.params == GetOr(m, "params", JObj(map[]))
      && r.value.body == GetOr(m, "body", JNull) && r.value.expectedSchema == GetOr(m, "expected_schema", JNull)
      && GetIntOr(m, "expected_status", 200) == Some(r.value.expectedStatus)
      && GetIntOr(m, "timeout", 30) == Some(r.value.timeout)
      && GetIntOr(m, "retry_count", 0) == Some(r.value.retryCount)
      && GetStrsOr(m, "expected_contains") == Some(r.value.expectedContains)
      && GetStrsOr(m, "setup_scripts") == Some(r.value.setupScripts)
      && GetStrsOr(m, "cleanup_scripts") == Some(r.value.cleanupScripts)
      && GetStrsOr(m, "dependencies") == Some(r.value.dependencies)
    ensures j.JObj? ==> var m := j.fields;
      (r.Some? <==> GetStr(m, "name").Some? && GetStr(m, "endpoint").Some? && GetStr(m, "method").Some?
                    && GetIntOr(m, "expected_status", 200).Some? && GetIntOr(m, "timeout", 30).Some?
                    && GetIntOr(m, "retry_count", 0).Some? && GetStrsOr(m, "expected_contains").Some?
                    && GetStrsOr(m, "setup_scripts").Some? && GetStrsOr(m, "cleanup_scripts").Some?
                    && GetStrsOr(m, "dependencies").Some?)
    ensures r.Some? ==> Upper(r.value.verb) == r.value.verb
    ensures r.Some? ==> if "expected_status" in j.fields then j.fields["expected_status"] == JInt(r.value.expectedStatus)
                        else r.value.expectedStatus == 200
    ensures r.Some? ==> if "timeout" in j.fields then j.fields["timeout"] == JInt(r.value.timeout) else r.value.timeout == 30
    ensures r.Some? ==> if "retry_count" in j.fields then j.fields["retry_count"] == JInt(r.value.retryCount)
                        else r.value.retryCount == 0
  {
    if !j.JObj? then None else
    var m := j.fields;
    var name, endpoint, verb := GetStr(m, "name"), GetStr(m, "endpoint"), GetStr(m, "method");
    var status, timeout, retries := GetIntOr(m, "expected_status", 200), GetIntOr(m, "timeout", 30),
                                    GetIntOr(m, "retry_count", 0);
    var contains, setup := GetStrsOr(m, "expected_contains"), GetStrsOr(m, "setup_scripts");
    var cleanup, deps := GetStrsOr(m, "cleanup_scripts"), GetStrsOr(m, "dependencies");
    if name.None? || endpoint.None? || verb.None? || status.None? || timeout.None? || retries.None?
       || contains.None? || setup.None? || cleanup.None? || deps.None? then None
    else
      UpperIdempotent(verb.value);
      var t := NewTest(name.value, endpoint.value, verb.value);
      Some(t.(headers := GetOr(m, "headers", JObj(map[])), params := GetOr(m, "params", JObj(map[])),
              body := GetOr(m, "body", JNull), expectedStatus := status.value,
              expectedSchema := GetOr(m, "expected_schema", JNull), expectedContains := contains.value,
              setupScripts := setup.value, cleanupScripts := cleanup.value, timeout := timeout.value,
              retryCount := retries.value, dependencies := deps.value))
  }

  // What each key of a test's dictionary reads back as, a few keys at a time.

  lemma ToDictNames(t: ApiTest)
    ensures var m := ToDict(t).fields;
      GetStr(m, "name") == Some(t.name) && GetStr(m, "endpoint") == Some(t.endpoint)
      && GetStr(m, "method") == Some(t.verb)
  {
  }

  lemma ToDictNumbers(t: ApiTest)
    ensures var m := ToDict(t).fields;
      GetIntOr(m, "expected_status", 200) == Some(t.expectedStatus)
      && GetIntOr(m, "timeout", 30) == Some(t.timeout)
      && GetIntOr(m, "retry_count", 0) == Some(t.retryCount)
  {
  }

  lemma ToDictValues(t: ApiTest)
    ensures var m := ToDict(t).fields;
      GetOr(m, "headers", JObj(map[])) == t.headers && GetOr(m, "params", JObj(map[])) == t.params
      && GetOr(m, "body", JNull) == t.body && GetOr(m, "expected_schema", JNull) == t.expectedSchema
  {
  }

  lemma ToDictLists(t: ApiTest)
    ensures var m := ToDict(t).fields;
      GetStrsOr(m, "expected_contains") == Some(t.expectedContains)
      && GetStrsOr(m, "setup_scripts") == Some(t.setupScripts)
      && GetStrsOr(m, "cleanup_scripts") == Some(t.cleanupScripts)
      && GetStrsOr(m, "dependencies") == Some(t.dependencies)
  {
    AsStrsStrs(t.expectedContains);
    AsStrsStrs(t.setupScripts);
    AsStrsStrs(t.cleanupScripts);
    AsStrsStrs(t.dependencies);
  }

  /** Reading back a test's dictionary gives the same test, when its method is upper-case as the constructor leaves it. */
  lemma FromDictToDict(t: ApiTest)
    requires Upper(t.verb) == t.verb
    ensures FromDict(ToDict(t)) == Some(t)
  {
    ToDictNames(t);
    ToDictNumbers(t);
    ToDictValues(t);
    ToDictLists(t);
  }

  /** A dictionary with only the three required keys gives the constructor's test. */
  lemma FromDictDefaults(name: string, endpoint: string, verb: string)
    ensures FromDict(JObj(map["name" := JStr(name), "endpoint" := JStr(endpoint), "method" := JStr(verb)]))
            == Some(NewTest(name, endpoint, verb))
  {
  }

  // ---------------------------------------------------------------------
  // Running one test

  datatype Status = Passed | Failed | Error | Skipped

  /** What `jsonschema.validate(response.json(), schema)` did. */
  datatype SchemaCheck = SchemaValid | SchemaInvalid(detail: string) | SchemaCrashed(detail: string)

  /** What the request gave: a response, or the exception it raised (the text of `str(e)`). */
  datatype Exchange =
    | Responded(statusCode: int, text: string, schema: SchemaCheck)
    | Raised(message: string)

  /** The error message a result carries. */
  datatype Message =
    | NoMessage
    | StatusMismatch(expected: int, got: int)
    | SchemaFailed(detail: string)
    | MissingText(text: string)
    | ErrorText(text: string)

  datatype TestResult = TestResult(testName: string, status: Status, message: Message, responseStatus: Option<int>)

  /** `TestResult(test)`: skipped, no message, no response. */
  function NewResult(t: ApiTest): (r: TestResult)
    ensures r.status == Skipped && r.message == NoMessage && r.responseStatus == None && r.testName == t.name
  {
    TestResult(t.name, Skipped, NoMessage, None)
  }

  /** Python's truth value of a JSON value: `None`, `False`, `0`, empty text, list or dict are false. */
  predicate Truthy(j: Json) {
    match j
    case JNull => false
    case JBool(b) => b
    case JInt(i) => i != 0
    case JReal(r) => r != 0.0
    case JStr(s) => s != []
    case JArr(items) => items != []
    case JObj(fields) => fields != map[]
  }

  /** The first expected text that, lower-cased, does not occur in `lowered`. */
  function FirstMissing(expected: seq<string>, lowered: string): (r: Option<string>)
    ensures r.None? <==> forall i :: 0 <= i < |expected| ==> Contains(lowered, Lower(expected[i]))
    ensures r.Some? ==> exists k :: (0 <= k < |expected| && expected[k] == r.value
                                     && !Contains(lowered, Lower(r.value))
                                     && forall i :: 0 <= i < k ==> Contains(lowered, Lower(expected[i])))
  {
    if expected == [] then None
    else if !Contains(lowered, Lower(expected[0])) then Some(expected[0])
    else
      var r := FirstMissing(expected[1..], lowered);
      assert forall i :: 1 <= i < |expected| ==> expected[i] == expected[1..][i - 1];
      if r.Some? then
        var k :| (0 <= k < |expected[1..]| && expected[1..][k] == r.value
                  && !Contains(lowered, Lower(r.value))
                  && forall i :: 0 <= i < k ==> Contains(lowered, Lower(expected[1..][i])));
        assert expected[k + 1] == r.value;
        r
      else r
  }

  /**
   * The verdict of `run_test`: the status code first, then the schema when
   * one is given, then the expected texts in order; an exception anywhere
   * makes it an error.
   */
  function Verdict(t: ApiTest, x: Exchange): TestResult {
    match x
    case Raised(message) => TestResult(t.name, Error, ErrorText(message), None)
    case Responded(code, text, schema) =>
      var r := TestResult(t.name, Skipped, NoMessage, Some(code));
      if code != t.expectedStatus then r.(status := Failed, message := StatusMismatch(t.expectedStatus, code))
      else if Truthy(t.expectedSchema) && schema.SchemaInvalid? then r.(status := Failed, message := SchemaFailed(schema.detail))
      else if Truthy(t.expectedSchema) && schema.SchemaCrashed? then r.(status := Error, message := ErrorText(schema.detail))
      else match FirstMissing(t.expectedContains, Lower(text))
        case Some(missing) => r.(status := Failed, message := MissingText(missing))
        case None => r.(status := Passed)
  }

  /**
   * A test passes exactly when the response came with the expected status,
   * the schema (if any) accepted it and every expected text occurs in it
   * without regard to case; a wrong status fails it whatever the schema and
   * the text; only an exception (from the request or the schema check) makes
   * it an error; and the result never stays skipped.
   */
  lemma VerdictFacts(t: ApiTest, x: Exchange)
    ensures var r := Verdict(t, x);
      (r.status == Passed <==>
         x.Responded? && x.statusCode == t.expectedStatus && (!Truthy(t.expectedSchema) || x.schema.SchemaValid?)
         && forall i :: 0 <= i < |t.expectedContains| ==> Contains(Lower(x.text), Lower(t.expectedContains[i])))
      && (x.Responded? && x.statusCode != t.expectedStatus ==>
            r.status == Failed && r.message == StatusMismatch(t.expectedStatus, x.statusCode))
      && (r.status == Error <==>
            x.Raised? || (x.statusCode == t.expectedStatus && Truthy(t.expectedSchema) && x.schema.SchemaCrashed?))
      && r.status != Skipped
      && (r.message.MissingText? ==>
            r.message.text in t.expectedContains && !Contains(Lower(x.text), Lower(r.message.text)))
  {
  }

  /** The content loop of `run_test`, as it runs: the first missing text ends it. */
  method CheckContent(expected: seq<string>, text: string) returns (missing: Option<string>)
    ensures missing == FirstMissing(expected, Lower(text))
  {
    var lowered := Lower(text);
    var i := 0;
    while i < |expected|
      invariant 0 <= i <= |expected|
      invariant FirstMissing(expected, lowered) == FirstMissing(expected[i..], lowered)
    {
      assert expected[i..][0] == expected[i] && expected[i..][1..] == expected[i + 1..];
      if !Contains(lowered, Lower(expected[i])) {
        return Some(expected[i]);
      }
      i := i + 1;
    }
    assert expected[i..] == [];
    return None;
  }

  /** `run_test` on the exchange `x`. */
  method RunTest(t: ApiTest, x: Exchange) returns (r: TestResult)
    ensures r == Verdict(t, x)
  {
    r := NewResult(t);
    match x {
      case Raised(message) =>
        r := r.(status := Error, message := ErrorText(message));
      case Responded(code, text, schema) =>
        r := r.(responseStatus := Some(code));
        if code != t.expectedStatus {
          r := r.(status := Failed, message := StatusMismatch(t.expectedStatus, code));
          return;
        }
        if Truthy(t.expectedSchema) {
          match schema {
            case SchemaInvalid(detail) =>
              r := r.(status := Failed, message := SchemaFailed(detail));
              return;
            case SchemaCrashed(detail) =>
              r := r.(status := Error, message := ErrorText(detail));
              return;
            case SchemaValid =>
          }
        }
        var missing := CheckContent(t.expectedContains, text);
        if missing.Some? {
          r := r.(status := Failed, message := MissingText(missing.value));
          return;
        }
        r := r.(status := Passed);
    }
  }

  // ---------------------------------------------------------------------
  // Summary counts

  function HasStatus(s: Status): TestResult -> bool { (r: TestResult) => r.status == s }

  /** The four counts of the summary add up to the number of results. */
  lemma {:induction false} CountsAddUp(results: seq<TestResult>)
    ensures Count(HasStatus(Passed), results) + Count(HasStatus(Failed), results)
            + Count(HasStatus(Error), results) + Count(HasStatus(Skipped), results) == |results|
  {
    if results != [] {
      CountsAddUp(results[1..]);
    }
  }

  // ---------------------------------------------------------------------
  // The runner

  class Runner {
    var tests: map<string, ApiTest>
    /** Insertion order of `tests`, which Python's dict keeps. */
    var order: seq<string>
    var results: seq<TestResult>

    ghost predicate Valid()
      reads this
    {
      (forall n :: n in tests <==> n in order) && (forall i, j :: 0 <= i < j < |order| ==> order[i] != order[j])
    }

    /** An empty runner; reading `test_config.yaml` is not modelled. */
    constructor()
      ensures Valid() && tests == map[] && order == [] && results == []
    {
      tests, order, results := map[], [], [];
    }

    /** `add_test`: refused, with nothing changed, for a name already registered. */
    method AddTest(t: ApiTest) returns (ok: bool)
      requires Valid()
      modifies this
      ensures Valid() && results == old(results)
      ensures ok <==> t.name !in old(tests)
      ensures ok ==> tests == old(tests)[t.name := t] && order == old(order) + [t.name]
      ensures !ok ==> tests == old(tests) && order == old(order)
    {
      if t.name in tests {
        return false;
      }
      tests := tests[t.name := t];
      order := order + [t.name];
      return true;
    }

    /** `remove_test`: refused, with nothing changed, for an unknown name. */
    method RemoveTest(name: string) returns (ok: bool)
      requires Valid()
      modifies this
      ensures Valid() && results == old(results)
      ensures ok <==> name in old(tests)
      ensures tests == old(tests) - {name}
      ensures order == Filter(Other(name), old(order))
    {
      FilterMembers(Other(name), order);
      if name !in tests {
        FilterAll(Other(name), order);
        return false;
      }
      var kept := Filter(Other(name), order);
      DistinctFilter(order, name);
      tests := tests - {name};
      order := kept;
      return true;
    }

    /** `run_all_tests` without threads: each registered test in order, answered by `respond`. */
    method RunAllTests(respond: string -> Exchange) returns (rs: seq<TestResult>)
      requires Valid()
      modifies this`results
      ensures results == rs && |rs| == |order|
      ensures forall i :: 0 <= i < |order| ==> rs[i] == Verdict(tests[order[i]], respond(order[i]))
    {
      rs := [];
      var i := 0;
      while i < |order|
        invariant 0 <= i <= |order| && |rs| == i
        invariant forall k :: 0 <= k < i ==> rs[k] == Verdict(tests[order[k]], respond(order[k]))
      {
        var r := RunTest(tests[order[i]], respond(order[i]));
        rs := rs + [r];
        i := i + 1;
      }
      results := rs;
    }
  }

  /** `lambda n: n != name`. */
  function Other(name: string): string -> bool { (n: string) => n != name }

  lemma {:induction false} DistinctFilter(xs: seq<string>, name: string)
    requires forall i, j :: 0 <= i < j < |xs| ==> xs[i] != xs[j]
    ensures var r := Filter(Other(name), xs); forall i, j :: 0 <= i < j < |r| ==> r[i] != r[j]
  {
    if xs != [] {
      var f := Other(name);
      var rest := xs[1..];
      DistinctFilter(rest, name);
      FilterMembers(f, rest);
      var kept := Filter(f, rest);
      assert kept == Filter(Other(name), rest);
      assert forall i, j :: 0 <= i < j < |Filter(Other(name), rest)| ==> Filter(Other(name), rest)[i] != Filter(Other(name), rest)[j];
      assert xs[0] !in rest by {
        assert forall j :: 0 <= j < |rest| ==> rest[j] == xs[j + 1];
      }
      assert Filter(f, xs) == (if f(xs[0]) then [xs[0]] else []) + kept;
      if f(xs[0]) {
        forall i, j | 0 <= i < j < |kept| + 1
          ensures ([xs[0]] + kept)[i] != ([xs[0]] + kept)[j]
        {
          assert ([xs[0]] + kept)[j] == kept[j - 1];
          if i == 0 {
            assert ([xs[0]] + kept)[0] == xs[0];
            assert kept[j - 1] in kept;
          } else {
            assert ([xs[0]] + kept)[i] == kept[i - 1];
          }
        }
        assert Filter(f, xs) == [xs[0]] + kept;
      } else {
        assert Filter(f, xs) == kept;
      }
    }
  }
}
