/**
 * The Celery tasks: `send_note`, which classifies a note's text and writes the seven
 * emotion scores back to the note, and the demonstration task `process`. The
 * classifier pipeline is an input: whether it loaded, and the (label, score) pairs it
 * returned or the message of the exception it raised.
 */
module Tasks {
  import opened Wrappers
  import opened Models
  import opened OrderedDict

  const MaxContentLength: nat := 1000

  /** `content[:1000]` when the content is longer than 1000 characters. */
  function TruncateContent(content: string): (r: string)
    ensures |r| <= MaxContentLength && r <= content
    ensures |content| <= MaxContentLength ==> r == content
    ensures |content| > MaxContentLength ==> |r| == MaxContentLength
  {
    if |content| > MaxContentLength then content[..MaxContentLength] else content
  }

  const NoteLabels: set<string> := {"anger", "disgust", "fear", "joy", "neutral", "sadness", "surprise"}

  /** The seven note fields written from the score dict, 0.0 for a missing label. */
  function ScoresFromMap(d: Dict<string, real>): (s: Scores)
    ensures forall e :: Score(s, e) == GetOr(d, Label(e), 0.0)
  {
    Scores(
      joy := GetOr(d, "joy", 0.0),
      sadness := GetOr(d, "sadness", 0.0),
      anger := GetOr(d, "anger", 0.0),
      fear := GetOr(d, "fear", 0.0),
      neutral := GetOr(d, "neutral", 0.0),
      disgust := GetOr(d, "disgust", 0.0),
      surprise := GetOr(d, "surprise", 0.0))
  }

  /** A label outside the seven never reaches the note. */
  lemma OtherLabelsIgnored(d: Dict<string, real>, k: string, v: real)
    requires DistinctKeys(d) && k !in NoteLabels
    ensures ScoresFromMap(Put(d, k, v)) == ScoresFromMap(d)
  {
  }

  /** Each note field is the score the classifier gave last to its label, or 0.0. */
  lemma FieldsFromClassifier(output: seq<(string, real)>, e: Emotion)
    ensures Score(ScoresFromMap(FromPairs(output)), e) ==
            match LastValue(output, Label(e)) case Some(v) => v case None => 0.0
  {
    FromPairsGet(output, Label(e));
  }

  /** Scores in [0, 1] from the classifier give a note whose seven fields are in [0, 1]. */
  lemma FieldsInUnit(output: seq<(string, real)>)
    requires forall i :: 0 <= i < |output| ==> 0.0 <= output[i].1 <= 1.0
    ensures InUnit(ScoresFromMap(FromPairs(output)))
  {
    forall e ensures 0.0 <= Score(ScoresFromMap(FromPairs(output)), e) <= 1.0 {
      ValueInUnit(output, Label(e));
    }
  }

  lemma ValueInUnit(output: seq<(string, real)>, k: string)
    requires forall i :: 0 <= i < |output| ==> 0.0 <= output[i].1 <= 1.0
    ensures 0.0 <= GetOr(FromPairs(output), k, 0.0) <= 1.0
  {
    FromPairsGet(output, k);
  }

  /** `max(emotion_scores.items(), key=...) if emotion_scores else ("unknown", 0.0)`. */
  function TopEmotion(d: Dict<string, real>): (r: (string, real))
    ensures d == [] ==> r == ("unknown", 0.0)
    ensures d != [] ==>
      exists i :: 0 <= i < |d| && d[i] == r &&
        (forall j :: 0 <= j < |d| ==> d[j].1 <= r.1) &&
        (forall j :: 0 <= j < i ==> d[j].1 < r.1)
  {
    if d == [] then ("unknown", 0.0) else MaxItem(d)
  }

  /** The notes table after the seven fields of note `noteId` were set to `s` and committed. */
  function WithScores(notes: seq<Note>, noteId: nat, s: Scores): (r: seq<Note>)
    ensures |r| == |notes|
    ensures forall i :: 0 <= i < |notes| && notes[i].id != noteId ==> r[i] == notes[i]
    ensures forall i :: 0 <= i < |notes| ==>
      r[i].id == notes[i].id && r[i].userId == notes[i].userId && r[i].createdAt == notes[i].createdAt
    ensures FindById(notes, NoteId, noteId).Some? ==> r[FindById(notes, NoteId, noteId).value].scores == s
    ensures FindById(notes, NoteId, noteId).None? ==> r == notes
  {
    match FindById(notes, NoteId, noteId)
    case None => notes
    case Some(i) => notes[i := notes[i].(scores := s)]
  }

  /** The dict `send_note` returns. `errorMessage` is present only in the error dict. */
  datatype TaskResult = TaskResult(
    noteId: nat,
    content: string,
    topEmotion: string,
    topConfidence: real,
    allEmotions: Dict<string, real>,
    status: string,
    errorMessage: Option<string>)

  const PipelineLoadError := "Failed to load emotion classification pipeline"

  /** The dict of the `except` branch. */
  function ErrorResult(noteId: nat, content: string, message: string): (r: TaskResult)
    ensures r.noteId == noteId && r.content == content && r.errorMessage == Some(message)
    ensures r.status == "error" && r.topEmotion == "error" && r.topConfidence == 0.0 && r.allEmotions == []
  {
    TaskResult(noteId, content, "error", 0.0, [], "error", Some(message))
  }

  /** `send_note`. `pipelineLoaded` says whether the classifier loaded; `classified` is what it
      returned for the truncated text, or the message it raised; `dbError` is the message of
      an exception raised by the note lookup or the commit. */
  method SendNote(db: Database, noteId: nat, content: string, pipelineLoaded: bool,
                  classified: Result<seq<(string, real)>, string>, dbError: Option<string>)
    returns (r: TaskResult)
    modifies db`notes
    ensures r.noteId == noteId
    ensures !pipelineLoaded ==> r == ErrorResult(noteId, content, PipelineLoadError)
    ensures pipelineLoaded ==> r.content == TruncateContent(content)
    ensures pipelineLoaded && classified.Err? ==>
      r == ErrorResult(noteId, TruncateContent(content), classified.error)
    ensures pipelineLoaded && classified.Ok? && dbError.Some? ==>
      r == ErrorResult(noteId, TruncateContent(content), dbError.value)
    ensures r.status == "success" <==> pipelineLoaded && classified.Ok? && dbError.None?
    ensures r.status == "success" ==>
      && r.allEmotions == FromPairs(classified.value)
      && (r.topEmotion, r.topConfidence) == TopEmotion(r.allEmotions)
      && r.errorMessage.None?
    ensures r.status != "success" ==>
      r.status == "error" && r.topEmotion == "error" && r.topConfidence == 0.0 &&
      r.allEmotions == [] && r.errorMessage.Some?
    ensures db.notes == if r.status == "success"
                        then WithScores(old(db.notes), noteId, ScoresFromMap(r.allEmotions))
                        else old(db.notes)
  {
    if !pipelineLoaded {
      return ErrorResult(noteId, content, PipelineLoadError);
    }
    var text := TruncateContent(content);
    if classified.Err? {
      return ErrorResult(noteId, text, classified.error);
    }
    var scores := FromPairs(classified.value);
    if dbError.Some? {
      return ErrorResult(noteId, text, dbError.value);
    }
    var found := FindById(db.notes, NoteId, noteId);
    if found.Some? {
      var i := found.value;
      db.notes := db.notes[i := db.notes[i].(scores := ScoresFromMap(scores))];
    }
    var top := TopEmotion(scores);
    r := TaskResult(noteId, text, top.0, top.1, scores, "success", None);
  }

  /** `process`: five rounds of a counter loop (each round sleeps one second and prints,
      which is not modelled), then `x**2 + y**2`. */
  method Process(x: int, y: int) returns (r: int, rounds: nat)
    ensures rounds == 5
    ensures r == x * x + y * y
  {
    var i := 0;
    while i < 5
      invariant 0 <= i <= 5
    {
      i := i + 1;
    }
    rounds := i;
    r := x * x + y * y;
  }
}
