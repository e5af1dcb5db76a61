/**
 * The upload workflow (app/upload_agent.py): a property is described over
 * several turns, the fields are merged into the session's memory, missing
 * fields are asked for, and a complete record is uploaded to the catalog.
 * The extractor's inputs (recognised entities, the language model's answer)
 * are parameters; the background task is a pending job, run by `UploadProperty`.
 */
module UploadAgentModel {
  import opened Outcomes
  import opened Text
  import opened Memory
  import opened NluExtractor
  import opened Sequences

  /** The fields a record needs before it is uploaded, in the order they are asked for. */
  const RequiredFields: seq<string> := ["title", "location", "price", "area", "amenities", "images"]

  /** The phrases that ask to start again; all lower case. */
  const ResetPhrases: seq<string> :=
    ["start over", "reset", "clear all", "forget it", "restart",
     "begin again", "new property", "delete previous", "discard"]

  // ---------------------------------------------------------------------
  // Reset intent.

  /** `detect_reset_intent`: some reset phrase occurs in the lower-cased text. */
  predicate DetectResetIntent(text: string) {
    exists p :: p in ResetPhrases && Contains(Lower(text), p)
  }

  lemma LowerUpperChar(c: char)
    ensures LowerChar(UpperChar(c)) == LowerChar(c)
  {
    if IsLowerLetter(c) {
      assert IsUpperLetter(UpperChar(c));
    }
  }

  /** Upper-casing before lower-casing changes nothing. */
  lemma LowerUpper(s: string)
    ensures Lower(Upper(s)) == Lower(s)
  {
    forall i | 0 <= i < |s|
      ensures Lower(Upper(s))[i] == Lower(s)[i]
    {
      LowerUpperChar(s[i]);
    }
  }

  /** Reset detection ignores case: shouting the text changes nothing. */
  lemma ResetIgnoresCase(text: string)
    ensures DetectResetIntent(Upper(text)) <==> DetectResetIntent(text)
  {
    LowerUpper(text);
  }

  /** A reset phrase anywhere in the text, in any mix of cases, is a reset, whatever surrounds it. */
  lemma ResetAnywhere(before: string, q: string, after: string)
    requires Lower(q) in ResetPhrases
    ensures DetectResetIntent(before + q + after)
  {
    LowerAppend(before, q);
    LowerAppend(before + q, after);
    assert HasAt(Lower(before + q + after), |before|, Lower(q));
  }

  // ---------------------------------------------------------------------
  // Missing fields.

  /** `field in details and details[field]` */
  predicate Filled(details: Record, field: string) {
    field in details && Truthy(details[field])
  }

  /** The fields of `fields` that `details` lacks or leaves empty, in their order. */
  function MissingOf(details: Record, fields: seq<string>): seq<string> {
    Where(fields, f => !Filled(details, f))
  }

  /** `check_missing_fields`: the loop that collects the missing required fields. */
  method CheckMissingFields(details: Record) returns (missing: seq<string>)
    ensures missing == MissingOf(details, RequiredFields)
  {
    missing := [];
    var i := 0;
    while i < |RequiredFields|
      invariant 0 <= i <= |RequiredFields|
      invariant missing == MissingOf(details, RequiredFields[..i])
    {
      var field := RequiredFields[i];
      assert RequiredFields[..i + 1][..i] == RequiredFields[..i];
      if field !in details || !Truthy(details[field]) {
        missing := missing + [field];
      }
      i := i + 1;
    }
    assert RequiredFields[..i] == RequiredFields;
  }

  /**
   * A field is reported missing exactly when it is required and not filled,
   * and the missing fields come in the order of the required ones.
   */
  lemma MissingExactly(details: Record, fields: seq<string>)
    ensures forall f :: f in MissingOf(details, fields) <==> f in fields && !Filled(details, f)
    ensures Subsequence(MissingOf(details, fields), fields)
  {
    WhereSpec(fields, f => !Filled(details, f));
  }

  /**
   * Merging keeps a record complete when the extracted values are non-empty:
   * a field missing afterwards was missing before.
   */
  lemma MergeNeverLosesFields(current: Record, extracted: Record)
    requires forall k :: k in extracted ==> Truthy(extracted[k])
    ensures forall f :: f in MissingOf(Overlay(current, extracted), RequiredFields) ==> f in MissingOf(current, RequiredFields)
    ensures MissingOf(current, RequiredFields) == [] ==> MissingOf(Overlay(current, extracted), RequiredFields) == []
  {
    MissingExactly(current, RequiredFields);
    MissingExactly(Overlay(current, extracted), RequiredFields);
    var after := MissingOf(Overlay(current, extracted), RequiredFields);
    assert after != [] ==> after[0] in after;
  }

  /**
   * A complete session stays complete through any further utterance: what
   * the layers extract is never empty, given non-empty entity spans.
   */
  lemma CompleteStaysComplete(current: Record, text: string, ents: seq<Entity>, llm: Option<Record>)
    requires MissingOf(current, RequiredFields) == []
    requires SpansNonEmpty(ents)
    ensures MissingOf(Overlay(current, Layered(RuleHitsOf(text), ents, llm)), RequiredFields) == []
  {
    LayeredTruthy(text, ents, llm);
    MergeNeverLosesFields(current, Layered(RuleHitsOf(text), ents, llm));
  }

  /** An empty value is missing, however it got into the record. */
  lemma EmptyValueMissing(details: Record, f: string)
    requires f in RequiredFields && f in details && !Truthy(details[f])
    ensures f in MissingOf(details, RequiredFields)
  {
    MissingExactly(details, RequiredFields);
  }

  // ---------------------------------------------------------------------
  // The agent.

  /** What `process_input` answers, with the data each status carries. */
  datatype Reply =
    | Reset
    | Incomplete(missing: seq<string>, captured: Record)
    | Uploading(taskId: nat)

  /** A dispatched upload: the record to save and the session to clear afterwards. */
  datatype UploadJob = UploadJob(taskId: nat, details: Record, sessionId: string)

  /** The progress report of one step: the percentage and the title shown. */
  datatype Progress = Progress(percent: nat, title: Value)

  /** `details.get('title', 'Unknown Property')` */
  function ProgressTitle(details: Record): (r: Value)
    ensures "title" in details ==> r == details["title"]
    ensures "title" !in details ==> r == Str("Unknown Property")
  {
    if "title" in details then details["title"] else Str("Unknown Property")
  }

  /** The property catalog; only its `save` is used, which may fail. */
  class Catalog {
    var saved: seq<Record>

    constructor ()
      ensures saved == []
    {
      saved := [];
    }

    /** Saves `details` when the store accepts it (`ok`); a refused save adds nothing. */
    method Save(details: Record, ok: bool) returns (stored: bool)
      modifies this
      ensures stored == ok
      ensures saved == if ok then old(saved) + [details] else old(saved)
    {
      stored := ok;
      if ok {
        saved := saved + [details];
      }
    }
  }

  class UploadAgent {
    const memory: PropertyMemory
    const catalog: Catalog
    /** The uploads dispatched and not yet run, oldest first. */
    var pending: seq<UploadJob>
    /** The identifier the next dispatched task receives. */
    var nextTask: nat

    constructor (memory: PropertyMemory, catalog: Catalog)
      ensures this.memory == memory && this.catalog == catalog
      ensures pending == [] && nextTask == 0
    {
      this.memory := memory;
      this.catalog := catalog;
      pending := [];
      nextTask := 0;
    }

    /**
     * `process_input`. A reset utterance clears the session and nothing else
     * happens. Otherwise the extracted fields are merged over the stored ones
     * and saved; when a required field is still missing the reply lists
     * exactly those fields, and when none is, one upload is dispatched.
     */
    method ProcessInput(text: string, sessionId: string, ents: seq<Entity>, llm: Option<Record>)
        returns (reply: Reply)
      modifies this, memory
      ensures DetectResetIntent(text) ==>
        && reply == Reset
        && memory.store == (if memory.available then old(memory.store) - {sessionId} else old(memory.store))
        && pending == old(pending) && nextTask == old(nextTask)
      ensures !DetectResetIntent(text) ==>
        var merged := Overlay(old(memory.Get(sessionId)), Layered(RuleHitsOf(text), ents, llm));
        && (memory.available ==> memory.store == old(memory.store)[sessionId := merged])
        && (!memory.available ==> memory.store == old(memory.store))
        && (MissingOf(merged, RequiredFields) != [] ==>
              reply == Incomplete(MissingOf(merged, RequiredFields), merged)
              && pending == old(pending) && nextTask == old(nextTask))
        && (MissingOf(merged, RequiredFields) == [] ==>
              reply == Uploading(old(nextTask))
              && pending == old(pending) + [UploadJob(old(nextTask), merged, sessionId)]
              && nextTask == old(nextTask) + 1)
      ensures !DetectResetIntent(text) && MissingOf(old(memory.Get(sessionId)), RequiredFields) == [] && SpansNonEmpty(ents)
              ==> reply == Uploading(old(nextTask))
    {
      if DetectResetIntent(text) {
        memory.Clear(sessionId);
        return Reset;
      }
      var extracted := Extract(text, ents, llm);
      var current := memory.Get(sessionId);
      if MissingOf(current, RequiredFields) == [] && SpansNonEmpty(ents) {
        CompleteStaysComplete(current, text, ents, llm);
      }
      var merged := Overlay(current, extracted);
      OverlayAbsorbs(current, extracted);
      var _ := memory.Update(sessionId, merged);
      var missing := CheckMissingFields(merged);
      if missing != [] {
        return Incomplete(missing, merged);
      }
      pending := pending + [UploadJob(nextTask, merged, sessionId)];
      reply := Uploading(nextTask);
      nextTask := nextTask + 1;
    }

    /**
     * `upload_property`: reports 0, 25, 50, 75 and 100 percent, then saves the
     * record, and clears the session only once the save went through; a
     * failed save leaves the session as it was.
     */
    method UploadProperty(details: Record, sessionId: string, saveOk: bool)
        returns (log: seq<Progress>, outcome: Result<string>)
      modifies catalog, memory
      ensures |log| == 5
      ensures forall k :: 0 <= k < 5 ==> log[k] == Progress(25 * k, ProgressTitle(details))
      ensures catalog.saved == if saveOk then old(catalog.saved) + [details] else old(catalog.saved)
      ensures saveOk ==> outcome == Ok("Property uploaded successfully.")
      ensures saveOk ==> memory.store == (if memory.available then old(memory.store) - {sessionId} else old(memory.store))
      ensures !saveOk ==> outcome.Err? && memory.store == old(memory.store)
    {
      log := [];
      var progress := 0;
      while progress <= 100
        invariant progress % 25 == 0 && progress <= 125
        invariant |log| == progress / 25
        invariant forall k :: 0 <= k < |log| ==> log[k] == Progress(25 * k, ProgressTitle(details))
        decreases 101 - progress
      {
        log := log + [Progress(progress, ProgressTitle(details))];
        progress := progress + 25;
      }
      var stored := catalog.Save(details, saveOk);
      if !stored {
        return log, Err("the catalog refused the record");
      }
      memory.Clear(sessionId);
      outcome := Ok("Property uploaded successfully.");
    }
  }
}
