/**
 * MemoryManager: decides when a user's notes are folded into a memory, which notes
 * go into it, the batch's dominant emotion, and the context handed to advice
 * generation. Queries are functions over a snapshot of the notes and memories
 * tables; saving a memory is a method on the database session.
 */
module MemoryManager {
  import opened Wrappers
  import opened Models
  import opened OrderedDict
  import opened Sorting

  const NotesPerMemory: nat := 3
  const MaxMemoriesForAdvice: nat := 5
  const RecentNotesForAdvice: nat := 3

  /** Insertion order of the averages dict when a batch is analysed. */
  const BatchEmotions: seq<Emotion> := [Joy, Sadness, Anger, Fear, Neutral, Disgust, Surprise]
  /** Insertion order of the current-emotions dict of the advice context. */
  const ContextEmotions: seq<Emotion> := [Joy, Sadness, Anger, Fear, Neutral]

  function NoteTime(n: Note): int { n.createdAt }
  function MemoryTime(m: Memory): int { m.createdAt }

  // ---------------------------------------------------------------- queries

  /** `Note.query.filter_by(user_id=u)`. */
  function NotesOf(notes: seq<Note>, u: nat): (r: seq<Note>)
    ensures |r| <= |notes|
    ensures forall n :: n in r <==> n in notes && n.userId == u
    ensures forall n :: multiset(r)[n] == if n.userId == u then multiset(notes)[n] else 0
  {
    if notes == [] then []
    else
      assert notes == [notes[0]] + notes[1..];
      (if notes[0].userId == u then [notes[0]] else []) + NotesOf(notes[1..], u)
  }

  /** `.filter(Note.created_at > t)`. */
  function NotesAfter(notes: seq<Note>, t: int): (r: seq<Note>)
    ensures |r| <= |notes|
    ensures forall n :: n in r <==> n in notes && n.createdAt > t
    ensures forall n :: multiset(r)[n] == if n.createdAt > t then multiset(notes)[n] else 0
  {
    if notes == [] then []
    else
      assert notes == [notes[0]] + notes[1..];
      (if notes[0].createdAt > t then [notes[0]] else []) + NotesAfter(notes[1..], t)
  }

  /** `UserMemory.query.filter_by(user_id=u)`. */
  function MemoriesOf(mems: seq<Memory>, u: nat): (r: seq<Memory>)
    ensures |r| <= |mems|
    ensures forall m :: m in r <==> m in mems && m.userId == u
    ensures forall m :: multiset(r)[m] == if m.userId == u then multiset(mems)[m] else 0
  {
    if mems == [] then []
    else
      assert mems == [mems[0]] + mems[1..];
      (if mems[0].userId == u then [mems[0]] else []) + MemoriesOf(mems[1..], u)
  }

  /** The last memory: `order_by(UserMemory.created_at.desc()).first()`. */
  function LatestMemory(mems: seq<Memory>, u: nat): (r: Option<Memory>)
    ensures r.None? <==> forall m :: m in mems ==> m.userId != u
    ensures r.Some? ==> r.value in mems && r.value.userId == u
    ensures r.Some? ==> forall m :: m in mems && m.userId == u ==> m.createdAt <= r.value.createdAt
  {
    var newest := Latest(MemoriesOf(mems, u), MemoryTime, 1);
    if newest == [] then None
    else
      assert newest[0] in newest;
      Some(newest[0])
  }

  /** A note of `u` created strictly after the newest memory of `u`, if there is one. */
  predicate Waiting(mems: seq<Memory>, u: nat, n: Note) {
    n.userId == u &&
    (LatestMemory(mems, u).Some? ==> n.createdAt > LatestMemory(mems, u).value.createdAt)
  }

  /** The notes `get_notes_for_memory` treats as not yet summarised: those of `u` created strictly
      after the latest memory's `created_at` (all of them when there is no memory). */
  function Window(notes: seq<Note>, mems: seq<Memory>, u: nat): (r: seq<Note>)
    ensures forall n :: n in r <==> n in notes && Waiting(mems, u, n)
    ensures forall n :: multiset(r)[n] == if Waiting(mems, u, n) then multiset(notes)[n] else 0
  {
    match LatestMemory(mems, u)
    case None => NotesOf(notes, u)
    case Some(last) => NotesAfter(NotesOf(notes, u), last.createdAt)
  }

  /** `should_create_memory`: counts the user's notes, or those after the newest memory. */
  function ShouldCreateMemory(notes: seq<Note>, mems: seq<Memory>, u: nat): (b: bool)
    ensures b <==> |Window(notes, mems, u)| >= NotesPerMemory
  {
    match LatestMemory(mems, u)
    case None => |NotesOf(notes, u)| >= NotesPerMemory
    case Some(last) => |NotesAfter(NotesOf(notes, u), last.createdAt)| >= NotesPerMemory
  }

  /** `get_notes_for_memory`: the oldest `NotesPerMemory` notes of the window, oldest first. */
  function GetNotesForMemory(notes: seq<Note>, mems: seq<Memory>, u: nat): (r: seq<Note>)
    ensures |r| == Min(NotesPerMemory, |Window(notes, mems, u)|)
    ensures Ascending(r, NoteTime)
    ensures forall n :: n in r ==> n in Window(notes, mems, u)
    ensures multiset(r) <= multiset(Window(notes, mems, u))
    ensures forall x, y :: x in r && y in Window(notes, mems, u) && y !in r ==> x.createdAt <= y.createdAt
  {
    Earliest(Window(notes, mems, u), NoteTime, NotesPerMemory)
  }

  /** The gate opens exactly when a full batch can be selected. */
  lemma GateIffFullBatch(notes: seq<Note>, mems: seq<Memory>, u: nat)
    ensures ShouldCreateMemory(notes, mems, u) <==> |GetNotesForMemory(notes, mems, u)| == NotesPerMemory
  {
  }

  // ---------------------------------------------------------------- batch analysis

  function Sum(notes: seq<Note>, e: Emotion): real {
    if notes == [] then 0.0 else Sum(notes[..|notes| - 1], e) + Score(notes[|notes| - 1].scores, e)
  }

  function Average(notes: seq<Note>, e: Emotion): real
    requires notes != []
  {
    Sum(notes, e) / (|notes| as real)
  }

  /** The dict `{label: average}` built in the order `es`. */
  function Averages(notes: seq<Note>, es: seq<Emotion>): (d: Dict<string, real>)
    requires notes != []
    ensures |d| == |es|
    ensures forall i :: 0 <= i < |es| ==> d[i] == (Label(es[i]), Average(notes, es[i]))
  {
    seq(|es|, i requires 0 <= i < |es| => (Label(es[i]), Average(notes, es[i])))
  }

  /** `es[i]` has the largest average, and every emotion before it a strictly smaller one. */
  predicate IsFirstMaximum(notes: seq<Note>, es: seq<Emotion>, i: nat)
    requires notes != [] && i < |es|
  {
    && (forall j :: 0 <= j < |es| ==> Average(notes, es[j]) <= Average(notes, es[i]))
    && (forall j :: 0 <= j < i ==> Average(notes, es[j]) < Average(notes, es[i]))
  }

  datatype Analysis = Analysis(dominantEmotion: string, intensity: real, themes: string)

  /** `analyze_notes_batch`. */
  function AnalyzeNotesBatch(notes: seq<Note>): (a: Analysis)
    ensures notes == [] ==> a == Analysis("neutral", 0.0, "")
    ensures a.themes == ""
    ensures notes != [] ==>
      exists i :: 0 <= i < |BatchEmotions| && IsFirstMaximum(notes, BatchEmotions, i) &&
        a.dominantEmotion == Label(BatchEmotions[i]) && a.intensity == Average(notes, BatchEmotions[i])
  {
    if notes == [] then Analysis("neutral", 0.0, "")
    else
      var d := Averages(notes, BatchEmotions);
      var m := MaxIndex(d);
      MaxIndexIsFirstMaximum(notes, BatchEmotions);
      Analysis(d[m].0, d[m].1, "")
  }

  /** The item `max` picks from the averages dict is the first emotion with the largest
      average. */
  lemma MaxIndexIsFirstMaximum(notes: seq<Note>, es: seq<Emotion>)
    requires notes != [] && es != []
    ensures MaxIndex(Averages(notes, es)) < |es|
    ensures IsFirstMaximum(notes, es, MaxIndex(Averages(notes, es)))
  {
    var d := Averages(notes, es);
    var m := MaxIndex(d);
    forall j | 0 <= j < |es|
      ensures Average(notes, es[j]) <= Average(notes, es[m])
      ensures j < m ==> Average(notes, es[j]) < Average(notes, es[m])
    {
      assert d[j].1 == Average(notes, es[j]) && d[m].1 == Average(notes, es[m]);
    }
  }

  lemma {:induction false} SumBounds(notes: seq<Note>, e: Emotion)
    requires forall n :: n in notes ==> InUnit(n.scores)
    ensures 0.0 <= Sum(notes, e) <= |notes| as real
  {
    if notes != [] {
      SumBounds(notes[..|notes| - 1], e);
      assert InUnit(notes[|notes| - 1].scores);
    }
  }

  lemma AverageInUnit(notes: seq<Note>, e: Emotion)
    requires notes != []
    requires forall n :: n in notes ==> InUnit(n.scores)
    ensures 0.0 <= Average(notes, e) <= 1.0
  {
    SumBounds(notes, e);
    QuotientInUnit(Sum(notes, e), |notes| as real);
  }

  lemma QuotientInUnit(x: real, n: real)
    requires 0.0 < n && 0.0 <= x <= n
    ensures 0.0 <= x / n <= 1.0
  {
    var q := x / n;
    assert q * n == x;
    assert (1.0 - q) * n == n - x;
  }

  /** When every score lies in [0, 1], so does the batch's intensity. */
  lemma IntensityInUnit(notes: seq<Note>)
    requires forall n :: n in notes ==> InUnit(n.scores)
    ensures 0.0 <= AnalyzeNotesBatch(notes).intensity <= 1.0
  {
    if notes != [] {
      var i :| 0 <= i < |BatchEmotions| && AnalyzeNotesBatch(notes).intensity == Average(notes, BatchEmotions[i]);
      AverageInUnit(notes, BatchEmotions[i]);
    }
  }

  // ---------------------------------------------------------------- creating a memory

  /** The memory `create_and_save_memory` builds at time `now` with the given summary,
      or None when fewer than `NotesPerMemory` notes are waiting. */
  function NewMemory(notes: seq<Note>, mems: seq<Memory>, u: nat, summary: string, now: int): (r: Option<Memory>)
    ensures r.Some? <==> ShouldCreateMemory(notes, mems, u)
    ensures r.Some? ==>
      var batch := GetNotesForMemory(notes, mems, u);
      && r.value.userId == u && r.value.summary == summary && r.value.createdAt == now
      && r.value.notesCountInBatch == NotesPerMemory
      && r.value.firstNoteDate == batch[0].createdAt
      && r.value.lastNoteDate == batch[|batch| - 1].createdAt
      && r.value.firstNoteDate <= r.value.lastNoteDate
      && r.value.dominantEmotion == AnalyzeNotesBatch(batch).dominantEmotion
      && r.value.emotionalIntensity == AnalyzeNotesBatch(batch).intensity
      && r.value.themes == ""
  {
    var batch := GetNotesForMemory(notes, mems, u);
    if |batch| < NotesPerMemory then None else Some(BuildMemory(batch, u, summary, now))
  }

  /** The `UserMemory` record built from a selected batch. */
  function BuildMemory(batch: seq<Note>, u: nat, summary: string, now: int): (m: Memory)
    requires batch != []
    ensures m.userId == u && m.summary == summary && m.createdAt == now
    ensures m.notesCountInBatch == |batch|
    ensures m.firstNoteDate == batch[0].createdAt && m.lastNoteDate == batch[|batch| - 1].createdAt
    ensures m.dominantEmotion == AnalyzeNotesBatch(batch).dominantEmotion
    ensures m.emotionalIntensity == AnalyzeNotesBatch(batch).intensity
    ensures m.themes == ""
  {
    var a := AnalyzeNotesBatch(batch);
    Memory(u, summary, |batch|, batch[0].createdAt, batch[|batch| - 1].createdAt,
           now, a.dominantEmotion, a.intensity, a.themes)
  }

  /** `create_and_save_memory`. `summary` is what the summariser returned and `now` the
      database clock; `fails` says that one of the steps raised, after which the session
      is rolled back. */
  method CreateAndSaveMemory(db: Database, u: nat, summary: string, now: int, fails: bool)
    returns (r: Option<Memory>)
    modifies db`memories
    ensures r == if fails then None else NewMemory(old(db.notes), old(db.memories), u, summary, now)
    ensures db.memories == if r.Some? then old(db.memories) + [r.value] else old(db.memories)
  {
    var batch := GetNotesForMemory(db.notes, db.memories, u);
    if |batch| < NotesPerMemory || fails {
      return None;
    }
    var memory := BuildMemory(batch, u, summary, now);
    db.memories := db.memories + [memory];
    r := Some(memory);
  }

  /** No note is selected for two memories: once the memory built from a batch is stored,
      every note any later selection picks is strictly newer than every note of that batch,
      provided the memory was stamped later than every note existing when it was made. */
  lemma NoNoteInTwoBatches(notes: seq<Note>, mems: seq<Memory>, u: nat, summary: string, now: int,
                           laterNotes: seq<Note>, laterMems: seq<Memory>)
    requires NewMemory(notes, mems, u, summary, now).Some?
    requires forall n :: n in notes ==> n.createdAt < now
    requires NewMemory(notes, mems, u, summary, now).value in laterMems
    ensures forall x, y :: x in GetNotesForMemory(notes, mems, u) && y in GetNotesForMemory(laterNotes, laterMems, u)
                           ==> x.createdAt < y.createdAt
  {
    var m := NewMemory(notes, mems, u, summary, now).value;
    var last := LatestMemory(laterMems, u);
    assert last.Some? && m.createdAt <= last.value.createdAt;
  }

  /** The notes at or before a stored memory's `created_at` are never selected again; with
      more than `NotesPerMemory` notes waiting, the extra ones are skipped for good. */
  lemma EarlierNotesNeverSelected(notes: seq<Note>, mems: seq<Memory>, u: nat, m: Memory, n: Note)
    requires m in mems && m.userId == u && n.createdAt <= m.createdAt
    ensures n !in GetNotesForMemory(notes, mems, u)
  {
    assert LatestMemory(mems, u).Some?;
  }

  lemma {:induction false} NothingAfter(notes: seq<Note>, t: int)
    requires forall n :: n in notes ==> n.createdAt <= t
    ensures NotesAfter(notes, t) == []
  {
    if notes != [] {
      assert notes[0] in notes;
      NothingAfter(notes[1..], t);
    }
  }

  /** Right after a memory is stored the gate is closed again. */
  lemma GateClosesAfterMemory(notes: seq<Note>, mems: seq<Memory>, u: nat, summary: string, now: int)
    requires NewMemory(notes, mems, u, summary, now).Some?
    requires forall n :: n in notes ==> n.createdAt < now
    ensures !ShouldCreateMemory(notes, mems + [NewMemory(notes, mems, u, summary, now).value], u)
  {
    var m := NewMemory(notes, mems, u, summary, now).value;
    var mems' := mems + [m];
    assert m in mems' && m.userId == u;
    var last := LatestMemory(mems', u).value;
    assert now <= last.createdAt;
    NothingAfter(NotesOf(notes, u), last.createdAt);
  }

  // ---------------------------------------------------------------- advice context

  datatype Context = Context(
    memories: seq<Memory>,
    recentNotes: seq<Note>,
    currentEmotions: Dict<string, real>,
    dominantCurrentEmotion: string)

  /** The memories of the context: `order_by(created_at.desc()).limit(MAX_MEMORIES_FOR_ADVICE)`. */
  function ContextMemories(mems: seq<Memory>, u: nat): (r: seq<Memory>)
    ensures |r| == Min(MaxMemoriesForAdvice, |MemoriesOf(mems, u)|)
    ensures Descending(r, MemoryTime)
    ensures forall m :: m in r ==> m in mems && m.userId == u
    ensures multiset(r) <= multiset(MemoriesOf(mems, u))
    ensures forall x, y :: x in r && y in mems && y.userId == u && y !in r ==> y.createdAt <= x.createdAt
  {
    Latest(MemoriesOf(mems, u), MemoryTime, MaxMemoriesForAdvice)
  }

  /** The recent notes of the context, taken from all notes of the user whether or not a
      memory already covers them. */
  function RecentNotes(notes: seq<Note>, u: nat): (r: seq<Note>)
    ensures |r| == Min(RecentNotesForAdvice, |NotesOf(notes, u)|)
    ensures Descending(r, NoteTime)
    ensures forall n :: n in r ==> n in notes && n.userId == u
    ensures multiset(r) <= multiset(NotesOf(notes, u))
    ensures forall x, y :: x in r && y in notes && y.userId == u && y !in r ==> y.createdAt <= x.createdAt
  {
    Latest(NotesOf(notes, u), NoteTime, RecentNotesForAdvice)
  }

  /** `current_emotions` and the dominant current emotion computed from the recent notes. */
  function CurrentEmotions(recent: seq<Note>): (r: (Dict<string, real>, string))
    ensures recent == [] ==> r == ([], "neutral")
    ensures recent != [] ==>
      && |r.0| == |ContextEmotions|
      && (forall i :: 0 <= i < |ContextEmotions| ==>
            r.0[i] == (Label(ContextEmotions[i]), Average(recent, ContextEmotions[i])))
      && exists i :: 0 <= i < |ContextEmotions| && IsFirstMaximum(recent, ContextEmotions, i) &&
           r.1 == Label(ContextEmotions[i])
  {
    if recent == [] then ([], "neutral")
    else
      var current := Averages(recent, ContextEmotions);
      var m := MaxIndex(current);
      assert IsFirstMaximum(recent, ContextEmotions, m);
      (current, current[m].0)
  }

  /** `get_context_for_advice`. */
  function GetContextForAdvice(notes: seq<Note>, mems: seq<Memory>, u: nat): (c: Context)
    ensures c.memories == ContextMemories(mems, u) && c.recentNotes == RecentNotes(notes, u)
    ensures (c.currentEmotions, c.dominantCurrentEmotion) == CurrentEmotions(c.recentNotes)
    ensures |c.memories| <= MaxMemoriesForAdvice && |c.recentNotes| <= RecentNotesForAdvice
    ensures c.recentNotes == [] <==> forall n :: n in notes ==> n.userId != u
    ensures c.recentNotes == [] ==> c.currentEmotions == [] && c.dominantCurrentEmotion == "neutral"
    ensures c.recentNotes != [] ==>
      |c.currentEmotions| == |ContextEmotions| &&
      exists i :: 0 <= i < |ContextEmotions| && c.dominantCurrentEmotion == c.currentEmotions[i].0
  {
    var recent := RecentNotes(notes, u);
    NoNotesIff(notes, u);
    var (current, dominant) := CurrentEmotions(recent);
    Context(ContextMemories(mems, u), recent, current, dominant)
  }

  lemma NoNotesIff(notes: seq<Note>, u: nat)
    ensures NotesOf(notes, u) == [] <==> forall n :: n in notes ==> n.userId != u
  {
    if NotesOf(notes, u) != [] {
      assert NotesOf(notes, u)[0] in NotesOf(notes, u);
    }
  }
}
