/**
 * The decision logic of the guest intake endpoint, `submit` in
 * app/intake/routes.py (lines 62-125): the name check, the answers built from
 * the crime type's questions, the photo filter, and the duplicate check that
 * comes before `add`.
 *
 * The request is a value: its form fields as an ordered dictionary (the first
 * value of a repeated field wins, as `request.form.get` does) and its uploaded
 * files. The new id (`uuid.uuid4()`), the dashboard session id, the clock and
 * the EXIF stripper are parameters.
 */
module Intake {
  import opened Wrappers
  import opened Strings
  import opened Dict
  import opened Submissions
  import StoreModel
  import opened Store

  /** One uploaded file: its file name, its declared MIME type and its bytes. */
  datatype Upload = Upload(filename: string, mimetype: string, content: Bytes)

  /** The `limits` of the intake link's form schema; a missing limit is `None`. */
  datatype Limits = Limits(maxPhotos: Option<int>, maxPhotoSizeMb: Option<int>)

  /** What the endpoint answers: back to the form for a missing name or a duplicate, or the stored submission's id. */
  datatype Outcome = NameRequired | Duplicate | Accepted(submissionId: string)

  // ---------------------------------------------------------------------------
  // Form fields

  /** `request.form.get(key, "")`. */
  function Field(form: Dict<string>, key: string): string {
    Get(form, key).GetOr("")
  }

  /** `request.form.get(key, "").strip() or None`. */
  function OptionalField(form: Dict<string>, key: string): Option<string> {
    var v := Strip(Field(form, key));
    if v == "" then None else Some(v)
  }

  /** `request.form.get("crime_type", "outros")`: not stripped. */
  function CrimeType(form: Dict<string>): string {
    Get(form, "crime_type").GetOr("outros")
  }

  /** `request.form.get("guest_name", "").strip()`. */
  function GuestName(form: Dict<string>): string {
    Strip(Field(form, "guest_name"))
  }

  /** The spellings of "yes" a boolean question accepts. */
  const YesWords: set<string> := {"1", "true", "yes", "sim", "on"}

  /**
   * `val.lower() in ("1", "true", "yes", "sim", "on")`. Lowering only ASCII
   * letters gives the same answer as Python's full `lower()`: no other
   * character lowers to one of the letters of these words.
   */
  predicate IsYes(v: string) {
    Lower(v) in YesWords
  }

  /** The answer to one question: a boolean for a `boolean` question, otherwise the stripped text or `None`. */
  function AnswerFor(form: Dict<string>, q: Question): Answer {
    var v := Strip(Field(form, "q_" + q.id));
    if q.kind == "boolean" then Flag(IsYes(v))
    else if v != "" then Text(v)
    else Missing
  }

  /** The `answers` dict: each question's answer stored under its id, in schema order. */
  function Answers(form: Dict<string>, questions: seq<Question>): Dict<Answer> {
    if questions == [] then []
    else
      var q := questions[|questions| - 1];
      Put(Answers(form, questions[..|questions| - 1]), q.id, AnswerFor(form, q))
  }

  /** The answer of the last question with id `id`. */
  function LastAnswer(form: Dict<string>, questions: seq<Question>, id: string): Option<Answer> {
    if questions == [] then None
    else if questions[|questions| - 1].id == id then Some(AnswerFor(form, questions[|questions| - 1]))
    else LastAnswer(form, questions[..|questions| - 1], id)
  }

  /** `CRIME_SCHEMAS.get(crime_type, {}).get("questions", [])`. */
  function QuestionsFor(schemas: map<string, seq<Question>>, crimeType: string): seq<Question> {
    if crimeType in schemas then schemas[crimeType] else []
  }

  // ---------------------------------------------------------------------------
  // Photos

  /** `limits.get("max_photos", 3)`. */
  function MaxPhotos(limits: Limits): int {
    limits.maxPhotos.GetOr(3)
  }

  /** `limits.get("max_photo_size_mb", 3) * 1024 * 1024`, in bytes. */
  function MaxPhotoSize(limits: Limits): int {
    limits.maxPhotoSizeMb.GetOr(3) * 1024 * 1024
  }

  /** Python's `s[:n]`: a negative `n` counts from the end. */
  function SliceTo<T>(s: seq<T>, n: int): (r: seq<T>)
    ensures |r| <= |s|
  {
    if n >= |s| then s
    else if n >= 0 then s[..n]
    else if |s| + n >= 0 then s[..|s| + n]
    else []
  }

  /** `f.read(n)`: at most `n` bytes, everything when `n` is negative. */
  function ReadAtMost(content: Bytes, n: int): Bytes {
    if n < 0 || n >= |content| then content else content[..n]
  }

  /** `f.mimetype in {"image/jpeg", "image/png"}`. */
  predicate AllowedMime(m: string) {
    m == "image/jpeg" || m == "image/png"
  }

  /** What one considered file adds to `photos`: nothing when a guard skips it, else its stripped bytes. */
  function PhotoOf(f: Upload, maxSize: int, stripExif: Bytes -> Bytes): seq<Bytes> {
    if f.filename == "" || !AllowedMime(f.mimetype) then []
    else
      var data := ReadAtMost(f.content, maxSize + 1);
      if |data| > maxSize then [] else [stripExif(data)]
  }

  /** The `photos` list built from the considered files. */
  function Photos(files: seq<Upload>, maxSize: int, stripExif: Bytes -> Bytes): seq<Bytes> {
    if files == [] then []
    else Photos(files[..|files| - 1], maxSize, stripExif) + PhotoOf(files[|files| - 1], maxSize, stripExif)
  }

  /** A file is kept when it has a name, an allowed MIME type and at most `maxSize` bytes. */
  predicate Kept(f: Upload, maxSize: int) {
    f.filename != "" && AllowedMime(f.mimetype) && |f.content| <= maxSize
  }

  // ---------------------------------------------------------------------------
  // The submission and the decision

  /** The submission `submit` builds, or `None` when the name is empty after stripping. */
  function Candidate(form: Dict<string>, files: seq<Upload>, schemas: map<string, seq<Question>>, limits: Limits,
                     dashboardId: int, newId: string, now: int, stripExif: Bytes -> Bytes): Option<Submission>
  {
    var name := GuestName(form);
    if name == "" then None
    else
      Some(Submission(
        newId, dashboardId, name,
        OptionalField(form, "dob"), OptionalField(form, "rg"), OptionalField(form, "cpf"), OptionalField(form, "address"),
        Answers(form, QuestionsFor(schemas, CrimeType(form))),
        OptionalField(form, "narrative"),
        CrimeType(form),
        Photos(SliceTo(files, MaxPhotos(limits)), MaxPhotoSize(limits), stripExif),
        now))
  }

  /** The answer to a request, given the store before it. */
  function Decide(st: StoreModel.StoreState, candidate: Option<Submission>): Outcome {
    if candidate.None? then NameRequired
    else if StoreModel.IsDuplicate(st, candidate.value) then Duplicate
    else Accepted(candidate.value.submissionId)
  }

  /** The store after a request. */
  function After(st: StoreModel.StoreState, candidate: Option<Submission>): StoreModel.StoreState {
    if candidate.Some? && !StoreModel.IsDuplicate(st, candidate.value) then StoreModel.Added(st, candidate.value) else st
  }

  // ---------------------------------------------------------------------------
  // The endpoint

  /** Lines 76-83: the loop over the crime type's questions. */
  method CollectAnswers(form: Dict<string>, questions: seq<Question>) returns (answers: Dict<Answer>)
    ensures answers == Answers(form, questions)
  {
    answers := [];
    for i := 0 to |questions|
      invariant answers == Answers(form, questions[..i])
    {
      var q := questions[i];
      assert questions[..i + 1][..i] == questions[..i];
      var val := Strip(Field(form, "q_" + q.id));
      if q.kind == "boolean" {
        answers := Put(answers, q.id, Flag(Lower(val) in YesWords));
      } else {
        answers := Put(answers, q.id, if val != "" then Text(val) else Missing);
      }
    }
    assert questions[..|questions|] == questions;
  }

  /** Lines 86-97: the loop over the first `max_photos` files, skipping the ones a guard rejects. */
  method FilterPhotos(files: seq<Upload>, maxPhotos: int, maxSize: int, stripExif: Bytes -> Bytes) returns (photos: seq<Bytes>)
    ensures photos == Photos(SliceTo(files, maxPhotos), maxSize, stripExif)
  {
    var considered := SliceTo(files, maxPhotos);
    photos := [];
    for i := 0 to |considered|
      invariant photos == Photos(considered[..i], maxSize, stripExif)
    {
      var f := considered[i];
      assert considered[..i + 1][..i] == considered[..i];
      if f.filename == "" {
        continue;
      }
      if !AllowedMime(f.mimetype) {
        continue;
      }
      var data := ReadAtMost(f.content, maxSize + 1);
      if |data| > maxSize {
        continue;
      }
      photos := photos + [stripExif(data)];
    }
    assert considered[..|considered|] == considered;
  }

  /** `submit(token)` from line 62 on, for the dashboard session `dashboardId`. */
  method Submit(store: SubmissionStore, form: Dict<string>, files: seq<Upload>, schemas: map<string, seq<Question>>,
                limits: Limits, dashboardId: int, newId: string, now: int, stripExif: Bytes -> Bytes)
    returns (outcome: Outcome)
    requires store.Valid()
    modifies store
    ensures store.Valid()
    ensures outcome == Decide(old(store.State()), Candidate(form, files, schemas, limits, dashboardId, newId, now, stripExif))
    ensures store.State() == After(old(store.State()), Candidate(form, files, schemas, limits, dashboardId, newId, now, stripExif))
  {
    var crimeType := CrimeType(form);
    var guestName := Strip(Field(form, "guest_name"));
    if guestName == "" {
      return NameRequired;
    }
    var dob := OptionalField(form, "dob");
    var rg := OptionalField(form, "rg");
    var cpf := OptionalField(form, "cpf");
    var address := OptionalField(form, "address");
    var narrative := OptionalField(form, "narrative");
    var answers := CollectAnswers(form, QuestionsFor(schemas, crimeType));
    var photos := FilterPhotos(files, MaxPhotos(limits), MaxPhotoSize(limits), stripExif);
    var sub := Submission(newId, dashboardId, guestName, dob, rg, cpf, address, answers, narrative, crimeType, photos, now);
    var dup := store.IsDuplicate(sub);
    if dup {
      return Duplicate;
    }
    var sid := store.Add(sub);
    return Accepted(sid);
  }

  // ---------------------------------------------------------------------------
  // What the endpoint promises

  /** An empty name, after stripping, is rejected and the store is left as it was; any other name is kept stripped. */
  lemma NameRequiredAddsNothing(st: StoreModel.StoreState, form: Dict<string>, files: seq<Upload>, schemas: map<string, seq<Question>>,
                                limits: Limits, dashboardId: int, newId: string, now: int, stripExif: Bytes -> Bytes)
    ensures var c := Candidate(form, files, schemas, limits, dashboardId, newId, now, stripExif);
      && (Decide(st, c) == NameRequired <==> Strip(Field(form, "guest_name")) == "")
      && (Decide(st, c) == NameRequired ==> After(st, c) == st)
      && (c.Some? ==> c.value.guestName == Strip(Field(form, "guest_name")) && c.value.guestName != "")
  {
  }

  /** A duplicate leaves the store as it was; otherwise the submission is added, exactly once, under the new id. */
  lemma DuplicateOrAddedOnce(st: StoreModel.StoreState, sub: Submission)
    requires sub.submissionId !in st.byId && sub.submissionId !in StoreModel.Indexed(st, sub.dashboardId)
    ensures StoreModel.IsDuplicate(st, sub) ==> Decide(st, Some(sub)) == Duplicate && After(st, Some(sub)) == st
    ensures !StoreModel.IsDuplicate(st, sub) ==>
      && Decide(st, Some(sub)) == Accepted(sub.submissionId)
      && StoreModel.Get(After(st, Some(sub)), sub.submissionId) == Some(sub)
      && StoreModel.ListFor(After(st, Some(sub)), sub.dashboardId) == StoreModel.ListFor(st, sub.dashboardId) + [sub]
  {
    if !StoreModel.IsDuplicate(st, sub) {
      StoreModel.AddedFacts(st, sub);
      StoreModel.AddedListsOnceMore(st, sub);
    }
  }

  /** An optional field is `None` exactly when it is empty after stripping, and otherwise holds the stripped text. */
  lemma OptionalFieldStripped(form: Dict<string>, key: string)
    ensures OptionalField(form, key).None? <==> Strip(Field(form, key)) == ""
    ensures OptionalField(form, key).Some? ==>
      var v := OptionalField(form, key).value;
      v != "" && !IsSpace(v[0]) && !IsSpace(v[|v| - 1]) && Strip(v) == v
  {
    StripShape(Field(form, key));
    StripIdempotent(Field(form, key));
  }

  /** A boolean answer is true exactly for the yes-words, in any letter case. */
  lemma YesIgnoresCase(v: string)
    ensures IsYes(v) <==> IsYes(Lower(v))
    ensures IsYes("SIM") && IsYes("On") && IsYes("1") && !IsYes("nao") && !IsYes("")
  {
    LowerIdempotent(v);
    assert Lower("SIM") == "sim" && Lower("On") == "on" && Lower("1") == "1";
    assert Lower("nao") == "nao" && Lower("") == "";
  }

  lemma LowerIdempotent(v: string)
    ensures Lower(Lower(v)) == Lower(v)
  {
  }

  /**
   * The answers' keys are the question ids in schema order without repeats,
   * each holding the answer of its last question; every value is a boolean,
   * `None` or a non-empty stripped text.
   */
  lemma {:induction false} AnswersShape(form: Dict<string>, questions: seq<Question>, id: string)
    ensures Keys(Answers(form, questions)) == Unique(Ids(questions))
    ensures Get(Answers(form, questions), id) == LastAnswer(form, questions, id)
  {
    if questions != [] {
      var init := questions[..|questions| - 1];
      var q := questions[|questions| - 1];
      AnswersShape(form, init, id);
      PutKeys(Answers(form, init), q.id, AnswerFor(form, q));
      PutGet(Answers(form, init), q.id, AnswerFor(form, q), id);
      assert Ids(questions)[..|questions| - 1] == Ids(init);
    }
  }

  /** A text answer is never empty: an empty reply to a non-boolean question is `None`. */
  lemma AnswerNeverEmptyText(form: Dict<string>, q: Question)
    ensures AnswerFor(form, q) != Text("")
    ensures q.kind == "boolean" <==> AnswerFor(form, q).Flag?
  {
  }

  /** Reading `max_size + 1` bytes tells a file over the limit from one within it, and reads all of the latter. */
  lemma ReadDecides(content: Bytes, maxSize: int)
    ensures |ReadAtMost(content, maxSize + 1)| > maxSize <==> |content| > maxSize
    ensures |content| <= maxSize ==> ReadAtMost(content, maxSize + 1) == content
  {
  }

  /** One file adds its stripped bytes exactly when it is kept. */
  lemma PhotoOfKept(f: Upload, maxSize: int, stripExif: Bytes -> Bytes)
    ensures PhotoOf(f, maxSize, stripExif) == if Kept(f, maxSize) then [stripExif(f.content)] else []
  {
    ReadDecides(f.content, maxSize);
  }

  /**
   * Every stored photo is the stripped content of a considered file that is
   * kept, every kept file gives one, and there are no more photos than files.
   */
  lemma {:induction false} PhotosAreKeptFiles(files: seq<Upload>, maxSize: int, stripExif: Bytes -> Bytes)
    ensures |Photos(files, maxSize, stripExif)| <= |files|
    ensures forall p :: p in Photos(files, maxSize, stripExif) ==> exists f :: f in files && Kept(f, maxSize) && p == stripExif(f.content)
    ensures forall f :: f in files && Kept(f, maxSize) ==> stripExif(f.content) in Photos(files, maxSize, stripExif)
  {
    if files != [] {
      var init := files[..|files| - 1];
      var last := files[|files| - 1];
      PhotosAreKeptFiles(init, maxSize, stripExif);
      PhotoOfKept(last, maxSize, stripExif);
      assert files == init + [last];
      forall f | f in files && Kept(f, maxSize) ensures stripExif(f.content) in Photos(files, maxSize, stripExif) {
        if f != last {
          assert f in init;
        }
      }
    }
  }

  /** At most `max_photos` files are considered, so no more photos than that are stored. */
  lemma PhotoBound(files: seq<Upload>, maxPhotos: int, maxSize: int, stripExif: Bytes -> Bytes)
    ensures |Photos(SliceTo(files, maxPhotos), maxSize, stripExif)| <= |files|
    ensures maxPhotos >= 0 ==> |Photos(SliceTo(files, maxPhotos), maxSize, stripExif)| <= maxPhotos
  {
    PhotosAreKeptFiles(SliceTo(files, maxPhotos), maxSize, stripExif);
  }

  /** With the schema's default limits, at most three photos of at most 3 MiB each are stored. */
  lemma DefaultLimits(files: seq<Upload>, stripExif: Bytes -> Bytes)
    ensures MaxPhotos(Limits(None, None)) == 3 && MaxPhotoSize(Limits(None, None)) == 3145728
    ensures |Photos(SliceTo(files, 3), 3145728, stripExif)| <= 3
  {
    PhotoBound(files, 3, 3145728, stripExif);
  }
}
