/**
 * The rows the core reads and writes (notes, memories, users) and the database
 * session that holds them. Only the columns the core uses are kept.
 */
module Models {
  import opened Wrappers

  /** The seven labels of the emotion classifier. */
  datatype Emotion = Joy | Sadness | Anger | Fear | Neutral | Disgust | Surprise

  function Label(e: Emotion): string {
    match e
    case Joy => "joy"
    case Sadness => "sadness"
    case Anger => "anger"
    case Fear => "fear"
    case Neutral => "neutral"
    case Disgust => "disgust"
    case Surprise => "surprise"
  }

  /** The seven `*_value` columns of a note. */
  datatype Scores = Scores(joy: real, sadness: real, anger: real, fear: real,
                           neutral: real, disgust: real, surprise: real)

  function Score(s: Scores, e: Emotion): real {
    match e
    case Joy => s.joy
    case Sadness => s.sadness
    case Anger => s.anger
    case Fear => s.fear
    case Neutral => s.neutral
    case Disgust => s.disgust
    case Surprise => s.surprise
  }

  /** Every score lies in [0, 1]. */
  predicate InUnit(s: Scores) {
    forall e :: 0.0 <= Score(s, e) <= 1.0
  }

  /** A row of the notes table; `createdAt` is the creation time as an integer. */
  datatype Note = Note(id: nat, userId: nat, createdAt: int, scores: Scores)

  /** A row of the `user_memories` table. */
  datatype Memory = Memory(
    userId: nat,
    summary: string,
    notesCountInBatch: nat,
    firstNoteDate: int,
    lastNoteDate: int,
    createdAt: int,
    dominantEmotion: string,
    emotionalIntensity: real,
    themes: string)

  /** A row of the `users` table. */
  datatype User = User(
    id: nat,
    firebaseUid: string,
    profilePictureUrl: Option<string>,
    profilePictureFilename: Option<string>)

  /** A JSON reply of a request handler: its status code and the string fields of its body. */
  datatype Reply = Reply(status: int, body: map<string, string>)

  function UserId(u: User): nat { u.id }
  function NoteId(n: Note): nat { n.id }

  /** `Model.query.get(id)`: the position of the row whose primary key `rowId` is `id`.
      Primary keys are unique in the database, so at most one row matches and which matching
      row the search meets first does not matter. */
  function FindById<T>(rows: seq<T>, rowId: T -> nat, id: nat): (r: Option<nat>)
    ensures r.Some? ==> r.value < |rows| && rowId(rows[r.value]) == id
    ensures r.None? ==> forall i :: 0 <= i < |rows| ==> rowId(rows[i]) != id
  {
    if rows == [] then None
    else if rowId(rows[|rows| - 1]) == id then Some(|rows| - 1)
    else FindById(rows[..|rows| - 1], rowId, id)
  }

  /** The database session, holding the tables the core touches. */
  class Database {
    var notes: seq<Note>
    var memories: seq<Memory>
    var users: seq<User>
    var nextUserId: nat  // the next value of the users' autoincrement key

    constructor ()
      ensures notes == [] && memories == [] && users == [] && nextUserId == 1
    {
      notes, memories, users, nextUserId := [], [], [], 1;
    }
  }
}
