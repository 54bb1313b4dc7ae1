/** The content-safety evaluator applied to chat completions: a severity
    threshold rule, a scan over the categories of a content-filter result for
    the `filtered` / `detected` flags, and the check of a whole response
    (the prompt's filter results, then the first choice's). */
module ContentSafety {
  import opened Results

  /** The threshold: `low` is the strictest, `high` the laxest. */
  datatype Threshold = Low | Medium | High

  /** A value in a category's filter map, as the response's JSON gives it. */
  datatype Value = Bool(b: bool) | Text(s: string) | Other

  /** One category's filter map ("filtered", "severity", "detected", ...). */
  type Filters = map<string, Value>

  /** A content-filter result: category name and filter map, in the order
      the dictionary yields its items. */
  type Categories = seq<(string, Filters)>

  /** ContentSafeException with its message, or the AttributeError raised
      when a severity is not a string and has no lower(). */
  datatype Failure = ContentSafe(message: string) | AttributeError

  function SeverityMessage(level: string): string {
    "Content safety check failed. Severity: " + level + "."
  }

  function CategoryMessage(category: string): string {
    "Content safety check failed. Category: " + category + "."
  }

  // ---------------------------------------------------------------------
  // Lower-casing
  // ---------------------------------------------------------------------

  function LowerChar(c: char): (r: char)
    ensures 'A' <= c <= 'Z' ==> r as int == c as int + 32
    ensures !('A' <= c <= 'Z') ==> r == c
  {
    if 'A' <= c <= 'Z' then (c as int + 32) as char else c
  }

  /** str.lower() on the ASCII letters. */
  function Lower(s: string): (r: string)
    ensures |r| == |s|
    ensures forall i :: 0 <= i < |s| ==> r[i] == LowerChar(s[i])
  {
    if s == [] then [] else [LowerChar(s[0])] + Lower(s[1..])
  }

  /** Lower-casing twice is lower-casing once. */
  lemma LowerIdempotent(s: string)
    ensures Lower(Lower(s)) == Lower(s)
  {
    var once := Lower(s);
    assert forall i :: 0 <= i < |s| ==> LowerChar(once[i]) == once[i];
  }

  // ---------------------------------------------------------------------
  // evaluate_severity
  // ---------------------------------------------------------------------

  /** A severity fails iff it is "high", or "medium" under a "medium" or
      "low" threshold, or "low" under a "low" threshold; it is compared
      lower-cased, and a filter map without "severity" never fails. */
  function EvaluateSeverity(filters: Filters, threshold: Threshold): (r: Result<(), Failure>)
    ensures r.Err? ==> "severity" in filters
    ensures r.Err? && r.error.ContentSafe? ==>
      filters["severity"].Text? && r.error.message == SeverityMessage(Lower(filters["severity"].s))
  {
    if "severity" !in filters then Ok(())
    else
      match filters["severity"]
      case Text(s) =>
        var level := Lower(s);
        if level == "high" || (level == "medium" && threshold in {Medium, Low}) || (level == "low" && threshold == Low)
        then Err(ContentSafe(SeverityMessage(level)))
        else Ok(())
      case _ => Err(AttributeError)
  }

  /** How strict a threshold is: the lowest severity rank it lets fail. */
  function Strictness(threshold: Threshold): nat {
    match threshold
    case Low => 0
    case Medium => 1
    case High => 2
  }

  /** The rank of a (lower-cased) severity level; other levels, such as
      "safe", have none. */
  function SeverityRank(level: string): Option<nat> {
    if level == "low" then Some(0)
    else if level == "medium" then Some(1)
    else if level == "high" then Some(2)
    else None
  }

  /** The rule as an order: a severity fails iff its rank is at least the
      threshold's. */
  lemma SeverityByRank(filters: Filters, threshold: Threshold)
    ensures EvaluateSeverity(filters, threshold) ==
      if "severity" !in filters then Ok(())
      else if !filters["severity"].Text? then Err(AttributeError)
      else
        var level := Lower(filters["severity"].s);
        if SeverityRank(level).Some? && SeverityRank(level).value >= Strictness(threshold)
        then Err(ContentSafe(SeverityMessage(level)))
        else Ok(())
  {
  }

  /** A severity that fails under a threshold fails, with the same message,
      under every stricter threshold. */
  lemma SeverityMonotone(filters: Filters, threshold: Threshold, stricter: Threshold)
    requires Strictness(stricter) <= Strictness(threshold)
    requires EvaluateSeverity(filters, threshold).Err?
    ensures EvaluateSeverity(filters, stricter) == EvaluateSeverity(filters, threshold)
  {
    SeverityByRank(filters, threshold);
    SeverityByRank(filters, stricter);
  }

  /** Severities that lower-case alike are judged alike. */
  lemma SeverityCaseInsensitive(filters: Filters, s: string, t: string, threshold: Threshold)
    requires Lower(s) == Lower(t)
    ensures EvaluateSeverity(filters["severity" := Text(s)], threshold) ==
      EvaluateSeverity(filters["severity" := Text(t)], threshold)
  {
  }

  /** Under the default threshold only a "high" severity, in any case,
      fails. */
  lemma DefaultThresholdOnlyHigh(filters: Filters)
    requires "severity" in filters && filters["severity"].Text?
    ensures EvaluateSeverity(filters, High).Err? <==> Lower(filters["severity"].s) == "high"
  {
  }

  // ---------------------------------------------------------------------
  // validate
  // ---------------------------------------------------------------------

  /** Literally True, not merely truthy. */
  predicate IsTrue(filters: Filters, key: string) {
    key in filters && filters[key] == Bool(true)
  }

  /** One category: `filtered`, then the severity, then `detected`. */
  function CategoryCheck(category: string, filters: Filters, threshold: Threshold): (r: Result<(), Failure>)
    ensures r.Err? ==> r == Err(ContentSafe(CategoryMessage(category))) || r == EvaluateSeverity(filters, threshold)
  {
    if IsTrue(filters, "filtered") then Err(ContentSafe(CategoryMessage(category)))
    else
      match EvaluateSeverity(filters, threshold)
      case Err(e) => Err(e)
      case Ok(_) =>
        if IsTrue(filters, "detected") then Err(ContentSafe(CategoryMessage(category))) else Ok(())
  }

  /** The categories in order; the first that fails raises. */
  function Validate(categories: Categories, threshold: Threshold): Result<(), Failure>
    decreases |categories|
  {
    if categories == [] then Ok(())
    else
      match CategoryCheck(categories[0].0, categories[0].1, threshold)
      case Err(e) => Err(e)
      case Ok(_) => Validate(categories[1..], threshold)
  }

  /** A category fails iff it is flagged `filtered` or `detected`, or its
      severity fails; a flag gives the category's message. */
  lemma CategoryCheckFails(category: string, filters: Filters, threshold: Threshold)
    ensures CategoryCheck(category, filters, threshold).Err? <==>
      IsTrue(filters, "filtered") || EvaluateSeverity(filters, threshold).Err? || IsTrue(filters, "detected")
    ensures IsTrue(filters, "filtered") ==> CategoryCheck(category, filters, threshold) == Err(ContentSafe(CategoryMessage(category)))
    ensures !IsTrue(filters, "filtered") && EvaluateSeverity(filters, threshold).Err? ==>
      CategoryCheck(category, filters, threshold) == EvaluateSeverity(filters, threshold)
  {
  }

  /** validate returns normally iff every category passes. */
  lemma {:induction false} ValidateOk(categories: Categories, threshold: Threshold)
    ensures Validate(categories, threshold).Ok? <==>
      forall i :: 0 <= i < |categories| ==> CategoryCheck(categories[i].0, categories[i].1, threshold).Ok?
    decreases |categories|
  {
    if categories != [] {
      ValidateOk(categories[1..], threshold);
      assert forall i :: 1 <= i < |categories| ==> categories[1..][i - 1] == categories[i];
    }
  }

  /** When validate raises, it raises the failure of the first category
      that fails. */
  lemma {:induction false} ValidateFirstFailure(categories: Categories, threshold: Threshold)
    requires Validate(categories, threshold).Err?
    ensures exists i :: (0 <= i < |categories| &&
      Validate(categories, threshold) == CategoryCheck(categories[i].0, categories[i].1, threshold) &&
      forall j :: 0 <= j < i ==> CategoryCheck(categories[j].0, categories[j].1, threshold).Ok?)
    decreases |categories|
  {
    if CategoryCheck(categories[0].0, categories[0].1, threshold).Ok? {
      var rest := categories[1..];
      ValidateFirstFailure(rest, threshold);
      var i :| 0 <= i < |rest| && Validate(rest, threshold) == CategoryCheck(rest[i].0, rest[i].1, threshold) &&
        forall j :: 0 <= j < i ==> CategoryCheck(rest[j].0, rest[j].1, threshold).Ok?;
      assert forall j :: 1 <= j < i + 1 ==> categories[j] == rest[j - 1];
      assert Validate(categories, threshold) == CategoryCheck(categories[i + 1].0, categories[i + 1].1, threshold);
    } else {
      assert Validate(categories, threshold) == CategoryCheck(categories[0].0, categories[0].1, threshold);
    }
  }

  /** Validating two lists one after the other is validating them joined. */
  lemma {:induction false} ValidateAppend(a: Categories, b: Categories, threshold: Threshold)
    ensures Validate(a + b, threshold) == if Validate(a, threshold).Err? then Validate(a, threshold) else Validate(b, threshold)
    decreases |a|
  {
    if a == [] {
      assert a + b == b;
    } else {
      assert (a + b)[0] == a[0];
      assert (a + b)[1..] == a[1..] + b;
      ValidateAppend(a[1..], b, threshold);
    }
  }

  /** A category passing under a threshold passes under every laxer one. */
  lemma CategoryMonotone(category: string, filters: Filters, threshold: Threshold, stricter: Threshold)
    requires Strictness(stricter) <= Strictness(threshold)
    requires CategoryCheck(category, filters, stricter).Ok?
    ensures CategoryCheck(category, filters, threshold).Ok?
  {
    if EvaluateSeverity(filters, threshold).Err? {
      SeverityMonotone(filters, threshold, stricter);
    }
  }

  /** Passing validation under a threshold implies passing under every
      laxer one. */
  lemma ValidateMonotone(categories: Categories, threshold: Threshold, stricter: Threshold)
    requires Strictness(stricter) <= Strictness(threshold)
    requires Validate(categories, stricter).Ok?
    ensures Validate(categories, threshold).Ok?
  {
    ValidateOk(categories, stricter);
    ValidateOk(categories, threshold);
    forall i | 0 <= i < |categories|
      ensures CategoryCheck(categories[i].0, categories[i].1, threshold).Ok?
    {
      CategoryMonotone(categories[i].0, categories[i].1, threshold, stricter);
    }
  }

  // ---------------------------------------------------------------------
  // content_safety_check
  // ---------------------------------------------------------------------

  /** An entry of prompt_filter_results: its content_filter_results, None
      when the key is missing or null. */
  datatype PromptFilterResult = PromptFilterResult(contentFilterResults: Option<Categories>)

  /** A choice: the content_filter_results of its model_extra, None when
      model_extra has no such key. */
  datatype Choice = Choice(contentFilterResults: Option<Categories>)

  /** A chat completion. prompt_filter_results is an extra attribute of the
      response: None when the response lacks it (reading it then raises
      AttributeError), Some([]) when it is null or empty. */
  datatype Response = Response(promptFilterResults: Option<seq<PromptFilterResult>>, choices: seq<Choice>)

  /** Does the response carry prompt filter results that are truthy? */
  predicate HasPromptResults(response: Response) {
    response.promptFilterResults.Some? && response.promptFilterResults.value != []
  }

  /** The categories the check inspects, in order: the first prompt filter
      result's (when non-empty), then the first choice's (when present) —
      and none at all when there are no prompt filter results. */
  function Inspected(response: Response): (categories: Categories)
    ensures !HasPromptResults(response) ==> categories == []
  {
    if !HasPromptResults(response) then []
    else
      var item := response.promptFilterResults.value[0];
      var prompt := if item.contentFilterResults.Some? then item.contentFilterResults.value else [];
      var output := if response.choices != [] && response.choices[0].contentFilterResults.Some?
        then response.choices[0].contentFilterResults.value else [];
      prompt + output
  }

  /** content_safety_check: AttributeError when the response lacks
      prompt_filter_results; nothing when they are null or empty; otherwise
      the prompt's results (when non-empty), then the first choice's. */
  function ContentSafetyCheck(response: Response, threshold: Threshold := High): Result<(), Failure> {
    if response.promptFilterResults.None? then Err(AttributeError)
    else if response.promptFilterResults.value == [] then Ok(())
    else
      var item := response.promptFilterResults.value[0];
      var promptCheck :=
        if item.contentFilterResults.Some? && item.contentFilterResults.value != []
        then Validate(item.contentFilterResults.value, threshold) else Ok(());
      match promptCheck
      case Err(e) => Err(e)
      case Ok(_) =>
        if response.choices != [] && response.choices[0].contentFilterResults.Some?
        then Validate(response.choices[0].contentFilterResults.value, threshold)
        else Ok(())
  }

  /** The check is validation of the inspected categories: it raises the
      failure of the first failing one, prompt before output. A response
      without the attribute raises AttributeError before anything is
      inspected. */
  lemma ContentSafetyCheckValidates(response: Response, threshold: Threshold)
    ensures response.promptFilterResults.None? ==> ContentSafetyCheck(response, threshold) == Err(AttributeError)
    ensures response.promptFilterResults.Some? ==>
      ContentSafetyCheck(response, threshold) == Validate(Inspected(response), threshold)
  {
    if HasPromptResults(response) {
      var item := response.promptFilterResults.value[0];
      var prompt := if item.contentFilterResults.Some? then item.contentFilterResults.value else [];
      var output := if response.choices != [] && response.choices[0].contentFilterResults.Some?
        then response.choices[0].contentFilterResults.value else [];
      ValidateAppend(prompt, output, threshold);
    }
  }

  /** The check passes iff the response has the attribute and every
      inspected category passes. */
  lemma ContentSafetyCheckOk(response: Response, threshold: Threshold)
    ensures ContentSafetyCheck(response, threshold).Ok? <==>
      response.promptFilterResults.Some? && forall c :: c in Inspected(response) ==> CategoryCheck(c.0, c.1, threshold).Ok?
  {
    ContentSafetyCheckValidates(response, threshold);
    ValidateOk(Inspected(response), threshold);
    var categories := Inspected(response);
    assert forall c :: c in categories ==> exists i :: 0 <= i < |categories| && categories[i] == c;
  }

  /** With null or empty prompt filter results nothing is checked, not even
      the choices. */
  lemma NoPromptResultsPasses(response: Response, threshold: Threshold)
    requires response.promptFilterResults == Some([])
    ensures ContentSafetyCheck(response, threshold) == Ok(())
  {
  }

  /** A response passing under a threshold passes under every laxer one. */
  lemma ContentSafetyCheckMonotone(response: Response, threshold: Threshold, stricter: Threshold)
    requires Strictness(stricter) <= Strictness(threshold)
    requires ContentSafetyCheck(response, stricter).Ok?
    ensures ContentSafetyCheck(response, threshold).Ok?
  {
    ContentSafetyCheckValidates(response, stricter);
    ContentSafetyCheckValidates(response, threshold);
    ValidateMonotone(Inspected(response), threshold, stricter);
  }

  // ---------------------------------------------------------------------
  // The evaluator's own test cases
  // ---------------------------------------------------------------------

  function Flags(filtered: bool, severity: string): Filters {
    map["filtered" := Bool(filtered), "severity" := Text(severity)]
  }

  /** A category with only these two flags: `filtered` decides, then the
      severity. */
  lemma FlagsCheck(category: string, filtered: bool, severity: string, threshold: Threshold)
    ensures CategoryCheck(category, Flags(filtered, severity), threshold) ==
      if filtered then Err(ContentSafe(CategoryMessage(category)))
      else EvaluateSeverity(map["severity" := Text(severity)], threshold)
  {
    var filters := Flags(filtered, severity);
    assert "detected" !in filters;
    assert filters["severity"] == Text(severity);
  }

  /** "high", "safe" and "HIGH" as they lower-case. */
  lemma ExampleLevels()
    ensures Lower("high") == "high" && Lower("safe") == "safe" && Lower("HIGH") == "high"
  {
    assert Lower("h") == "h" && Lower("gh") == "gh" && Lower("igh") == "igh";
    assert Lower("e") == "e" && Lower("fe") == "fe" && Lower("afe") == "afe";
    assert Lower("H") == "h" && Lower("GH") == "gh" && Lower("IGH") == "igh";
  }

  /** A prompt rated "high" fails under the default threshold. */
  lemma InputSeverityFails()
    ensures ContentSafetyCheck(Response(Some([PromptFilterResult(Some([("hate_speech", Flags(false, "high"))]))]), [Choice(None)])) ==
      Err(ContentSafe(SeverityMessage("high")))
  {
    ExampleLevels();
    FlagsCheck("hate_speech", false, "high", High);
  }

  /** A filtered prompt category fails whatever its severity. */
  lemma InputFilteredFails()
    ensures ContentSafetyCheck(Response(Some([PromptFilterResult(Some([("hate_speech", Flags(true, "low"))]))]), [Choice(None)])) ==
      Err(ContentSafe(CategoryMessage("hate_speech")))
  {
    FlagsCheck("hate_speech", true, "low", High);
  }

  /** A "safe" prompt passes, and the choice's "high" output then fails. */
  lemma OutputSeverityFails()
    ensures ContentSafetyCheck(Response(
      Some([PromptFilterResult(Some([("hate_speech", Flags(false, "safe"))]))]),
      [Choice(Some([("hate_speech", Flags(false, "high"))]))])) ==
      Err(ContentSafe(SeverityMessage("high")))
  {
    ExampleLevels();
    FlagsCheck("hate_speech", false, "safe", High);
    FlagsCheck("hate_speech", false, "high", High);
    assert Validate([("hate_speech", Flags(false, "safe"))], High) == Ok(());
  }

  /** "HIGH" fails like "high" does. */
  lemma UpperCaseSeverityFails()
    ensures EvaluateSeverity(map["severity" := Text("HIGH")], High) == Err(ContentSafe(SeverityMessage("high")))
  {
    ExampleLevels();
  }
}
