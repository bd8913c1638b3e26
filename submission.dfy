/**
 * The `Submission` record of app/store/__init__.py and the question entries of
 * the crime-type schemas (app/schemas/crime_types.py) that produce its answers.
 */
module Submissions {
  import opened Wrappers
  import opened Dict

  /** An answer value: a string, a boolean or Python's `None`. */
  datatype Answer = Text(text: string) | Flag(flag: bool) | Missing

  type Bytes = seq<bv8>

  /**
   * One guest-filled report. Optional fields are `None` when not given;
   * `answers` keeps the insertion order of the Python dict; `receivedAt` is the
   * creation instant, in seconds.
   */
  datatype Submission = Submission(
    submissionId: string,
    dashboardId: int,
    guestName: string,
    dob: Option<string>,
    rg: Option<string>,
    cpf: Option<string>,
    address: Option<string>,
    answers: Dict<Answer>,
    narrative: Option<string>,
    crimeType: string,
    photos: seq<Bytes>,
    receivedAt: int)

  /** One schema question: its id, its human label (`caption`) and its `type` (`"boolean"`, `"text"`, `"date"`, ...). */
  datatype Question = Question(id: string, caption: string, kind: string)

  /** The question ids of a schema, in order. */
  function Ids(questions: seq<Question>): (r: seq<string>)
    ensures |r| == |questions| && forall i :: 0 <= i < |questions| ==> r[i] == questions[i].id
  {
    if questions == [] then [] else Ids(questions[..|questions| - 1]) + [questions[|questions| - 1].id]
  }

  /** Python truthiness of an optional string: present and non-empty. */
  predicate Truthy(o: Option<string>) {
    o.Some? && o.value != ""
  }
}
