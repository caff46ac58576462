/**
  The flashcard export: read the course description, build one note model
  and one deck from it, then walk the lessons in order and, within each
  lesson, its phrases in order, adding one note per phrase. Reading the JSON
  files becomes a lookup in maps from path to parsed content; writing the
  package is not modelled.
*/
module ExportToAnki {
  import opened Text
  import opened PosixPath
  import opened FileSystem

  /** The course description's file name inside a course directory. */
  const CourseInfoFile: string := "course-info.json"
  /** The lesson description's file name inside a lesson directory. */
  const LessonInfoFile: string := "lesson-info.json"

  const ModelName: string := "Simple Model with Audio"
  const CardName: string := "Card 1"
  const EnglishField: string := "English"
  const AudioFieldName: string := "Audio"
  const FrontSide: string := "FrontSide"

  /** One phrase of a lesson: the English text, its translation, and the
      name of its audio file ("" when there is none). */
  datatype Phrase = Phrase(target: string, source: string, sourceAudio: string)

  datatype LessonInfo = LessonInfo(phrases: seq<Phrase>)

  /** A lesson entry of the course description: its directory, relative to
      the course directory. */
  datatype Lesson = Lesson(path: string)

  datatype CourseInfo = CourseInfo(name: string, lessons: seq<Lesson>, modelId: int, deckId: int, targetLanguage: string)

  datatype Template = Template(name: string, qfmt: string, afmt: string)

  datatype Model = Model(id: int, name: string, fields: seq<string>, templates: seq<Template>)

  datatype Note = Note(model: Model, fields: seq<string>)

  // ---------------------------------------------------------------------
  // The note model and its card template

  /** A template reference to a field. */
  function Placeholder(field: string): string {
    "{{" + field + "}}"
  }

  /** The question side: the English text, then the audio. */
  function QuestionFormat(): string {
    "{{English}}<br>{{Audio}}"
  }

  /** The answer side: the question side, a rule, then the target-language text. */
  function AnswerFormat(targetLanguage: string): string {
    "{{FrontSide}}<hr id=\"answer\">{{" + targetLanguage + "}}"
  }

  /** `genanki.Model(MODEL_ID, 'Simple Model with Audio', fields=..., templates=...)` */
  function BuildModel(course: CourseInfo): (model: Model)
    ensures model.id == course.modelId
    ensures |model.fields| == 3 && |model.templates| == 1
  {
    Model(course.modelId, ModelName,
          [EnglishField, course.targetLanguage, AudioFieldName],
          [Template(CardName, QuestionFormat(), AnswerFormat(course.targetLanguage))])
  }

  /** The single card asks with the first and third fields of the model
      (English and Audio) and answers with the second (the target language),
      so every field a template names is a field of the model. */
  lemma TemplateShowsModelFields(course: CourseInfo)
    ensures var model := BuildModel(course);
            var card := model.templates[0];
            && model.fields == [EnglishField, course.targetLanguage, AudioFieldName]
            && card.qfmt == Placeholder(model.fields[0]) + "<br>" + Placeholder(model.fields[2])
            && card.afmt == Placeholder(FrontSide) + "<hr id=\"answer\">" + Placeholder(model.fields[1])
  {
    QuestionNamesEnglishAndAudio();
    AnswerNamesTargetLanguage(course.targetLanguage);
  }

  lemma QuestionNamesEnglishAndAudio()
    ensures QuestionFormat() == Placeholder(EnglishField) + "<br>" + Placeholder(AudioFieldName)
  {
    assert Placeholder(EnglishField) == "{{English}}";
    assert Placeholder(AudioFieldName) == "{{Audio}}";
  }

  lemma AnswerNamesTargetLanguage(targetLanguage: string)
    ensures AnswerFormat(targetLanguage) == Placeholder(FrontSide) + "<hr id=\"answer\">" + Placeholder(targetLanguage)
  {
    var rule := "<hr id=\"answer\">";
    var front := "{{FrontSide}}<hr id=\"answer\">{{";
    assert front == (Placeholder(FrontSide) + rule) + "{{" by {
      assert Placeholder(FrontSide) == "{{FrontSide}}";
      assert |front| == 31;
    }
    assert AnswerFormat(targetLanguage) == front + targetLanguage + "}}";
    assert (Placeholder(FrontSide) + rule) + "{{" + targetLanguage + "}}"
        == (Placeholder(FrontSide) + rule) + ("{{" + targetLanguage + "}}");
  }

  // ---------------------------------------------------------------------
  // Notes

  const SoundOpen: string := "[sound:"
  const SoundClose: string := "]"

  /** `'[sound:{}]'.format(audio) if audio else ''`: an empty string is the
      only falsy string. */
  function AudioField(sourceAudio: string): (field: string)
    ensures field == "" <==> sourceAudio == ""
    ensures sourceAudio != "" ==> StartsWith(field, SoundOpen) && EndsWith(field, SoundClose)
  {
    if sourceAudio != "" then SoundOpen + sourceAudio + SoundClose else ""
  }

  /** Reference reading of an audio field: the file name between "[sound:"
      and "]", or "" when the field is not a sound reference. */
  function SoundFile(field: string): string {
    if |field| >= |SoundOpen| + |SoundClose| && StartsWith(field, SoundOpen) && EndsWith(field, SoundClose)
    then field[|SoundOpen|..|field| - |SoundClose|]
    else ""
  }

  /** The audio field names exactly the phrase's audio file. */
  lemma AudioFieldNamesAudio(sourceAudio: string)
    ensures SoundFile(AudioField(sourceAudio)) == sourceAudio
  {
    var field := AudioField(sourceAudio);
    if sourceAudio != "" {
      assert field[|SoundOpen|..|field| - |SoundClose|] == sourceAudio;
    }
  }

  /** The note's fields, in the model's field order. */
  function NoteFields(phrase: Phrase): (fields: seq<string>)
    ensures |fields| == 3
  {
    [phrase.target, phrase.source, AudioField(phrase.sourceAudio)]
  }

  /** A note's fields line up with the model's: English under "English",
      the translation under the target language, the audio reference under
      "Audio". */
  lemma NoteFieldsMatchModel(course: CourseInfo, phrase: Phrase)
    ensures var model := BuildModel(course);
            var fields := NoteFields(phrase);
            && |fields| == |model.fields|
            && model.fields[0] == EnglishField && fields[0] == phrase.target
            && model.fields[1] == course.targetLanguage && fields[1] == phrase.source
            && model.fields[2] == AudioFieldName && SoundFile(fields[2]) == phrase.sourceAudio
  {
    AudioFieldNamesAudio(phrase.sourceAudio);
  }

  /** The notes of one lesson, one per phrase, in phrase order. */
  function LessonNotes(model: Model, phrases: seq<Phrase>): (notes: seq<Note>)
    ensures |notes| == |phrases|
    decreases |phrases|
  {
    if phrases == [] then []
    else LessonNotes(model, phrases[..|phrases| - 1]) + [Note(model, NoteFields(phrases[|phrases| - 1]))]
  }

  /** The notes of several lessons, lesson after lesson. */
  function NotesOf(model: Model, lessons: seq<LessonInfo>): seq<Note>
    decreases |lessons|
  {
    if lessons == [] then []
    else NotesOf(model, lessons[..|lessons| - 1]) + LessonNotes(model, lessons[|lessons| - 1].phrases)
  }

  /** Total number of phrases over the lessons. */
  function PhraseCount(lessons: seq<LessonInfo>): nat
    decreases |lessons|
  {
    if lessons == [] then 0 else PhraseCount(lessons[..|lessons| - 1]) + |lessons[|lessons| - 1].phrases|
  }

  lemma NotesOfAppend(model: Model, lessons: seq<LessonInfo>, lesson: LessonInfo)
    ensures NotesOf(model, lessons + [lesson]) == NotesOf(model, lessons) + LessonNotes(model, lesson.phrases)
  {
    assert (lessons + [lesson])[..|lessons|] == lessons;
  }

  lemma {:induction false} LessonNoteAt(model: Model, phrases: seq<Phrase>, p: nat)
    requires p < |phrases|
    ensures LessonNotes(model, phrases)[p] == Note(model, NoteFields(phrases[p]))
    decreases |phrases|
  {
    var init := phrases[..|phrases| - 1];
    if p < |init| {
      LessonNoteAt(model, init, p);
    }
  }

  /** One note per phrase: the deck holds as many notes as the lessons hold
      phrases. */
  lemma {:induction false} NoteCount(model: Model, lessons: seq<LessonInfo>)
    ensures |NotesOf(model, lessons)| == PhraseCount(lessons)
    decreases |lessons|
  {
    if lessons != [] {
      NoteCount(model, lessons[..|lessons| - 1]);
    }
  }

  /** Phrase `p` of lesson `l` becomes the note that follows every phrase of
      the earlier lessons and the earlier phrases of its own lesson. */
  lemma {:induction false} NoteOrder(model: Model, lessons: seq<LessonInfo>, l: nat, p: nat)
    requires l < |lessons| && p < |lessons[l].phrases|
    ensures PhraseCount(lessons[..l]) + p < |NotesOf(model, lessons)|
    ensures NotesOf(model, lessons)[PhraseCount(lessons[..l]) + p] == Note(model, NoteFields(lessons[l].phrases[p]))
    decreases |lessons|
  {
    var init := lessons[..|lessons| - 1];
    NoteCount(model, lessons);
    NoteCount(model, init);
    if l == |lessons| - 1 {
      assert lessons[..l] == init;
      LessonNoteAt(model, lessons[l].phrases, p);
    } else {
      assert init[..l] == lessons[..l];
      NoteOrder(model, init, l, p);
      PhraseCountPrefix(init, l);
    }
  }

  lemma {:induction false} PhraseCountPrefix(lessons: seq<LessonInfo>, l: nat)
    requires l < |lessons|
    ensures PhraseCount(lessons[..l]) + |lessons[l].phrases| <= PhraseCount(lessons)
    decreases |lessons|
  {
    var init := lessons[..|lessons| - 1];
    if l == |lessons| - 1 {
      assert lessons[..l] == init;
    } else {
      assert init[..l] == lessons[..l];
      PhraseCountPrefix(init, l);
    }
  }

  // ---------------------------------------------------------------------
  // Paths

  /** `os.path.join(os.path.dirname(course_info_path), lesson['path'], 'lesson-info.json')` */
  function LessonInfoPath(courseInfoPath: string, lessonPath: string): string {
    Join(Join(Dirname(courseInfoPath), lessonPath), LessonInfoFile)
  }

  /** For a course directory written with at most one trailing '/', each
      lesson's description lies at course directory / lesson path /
      "lesson-info.json". */
  lemma LessonInfoPathUnderCourse(coursePath: string, lessonPath: string)
    requires !(|coursePath| >= 2 && coursePath[|coursePath| - 1] == Sep && coursePath[|coursePath| - 2] == Sep)
    ensures LessonInfoPath(Join(coursePath, CourseInfoFile), lessonPath)
         == Join(Join(coursePath, lessonPath), LessonInfoFile)
  {
    if coursePath == [] || coursePath[|coursePath| - 1] != Sep {
      DirnameOfJoin(coursePath, CourseInfoFile);
    } else if coursePath == [Sep] {
      var p := Join(coursePath, CourseInfoFile);
      assert p == [Sep] + CourseInfoFile;
      assert Sep !in CourseInfoFile;
      forall k | 0 < k < |p| ensures p[k] != Sep {
        assert p[k] == CourseInfoFile[k - 1];
      }
      RFindUnique(p, Sep, 0);
      assert p[..1] == [Sep];
    } else {
      var dir := coursePath[..|coursePath| - 1];
      assert coursePath == dir + [Sep];
      assert Join(coursePath, CourseInfoFile) == Join(dir, CourseInfoFile);
      DirnameOfJoin(dir, CourseInfoFile);
      JoinAfterTrailingSep(dir, lessonPath);
    }
  }

  /** A directory joined with or without one trailing '/' gives the same path. */
  lemma JoinAfterTrailingSep(dir: string, name: string)
    requires dir != [] && dir[|dir| - 1] != Sep
    ensures Join(dir + [Sep], name) == Join(dir, name)
  {
  }

  /** Opening the lessons' descriptions one after the other: the lessons read
      and, at the first missing file, the `FileNotFoundError` that ends the
      export. */
  function LoadLessons(courseInfoPath: string, lessons: seq<Lesson>, lessonFiles: map<string, LessonInfo>)
    : (seq<LessonInfo>, Outcome)
    decreases |lessons|
  {
    if lessons == [] then ([], Ok)
    else
      var path := LessonInfoPath(courseInfoPath, lessons[0].path);
      if path !in lessonFiles then ([], Raised(FileNotFound(path)))
      else
        var rest := LoadLessons(courseInfoPath, lessons[1..], lessonFiles);
        ([lessonFiles[path]] + rest.0, rest.1)
  }

  /** One step of `LoadLessons` from lesson `l`. */
  lemma LoadLessonsFrom(courseInfoPath: string, lessons: seq<Lesson>, lessonFiles: map<string, LessonInfo>, l: nat)
    requires l < |lessons|
    ensures var path := LessonInfoPath(courseInfoPath, lessons[l].path);
            var rest := LoadLessons(courseInfoPath, lessons[l + 1..], lessonFiles);
            LoadLessons(courseInfoPath, lessons[l..], lessonFiles)
            == if path !in lessonFiles then ([], Raised(FileNotFound(path))) else ([lessonFiles[path]] + rest.0, rest.1)
  {
    assert lessons[l..][0] == lessons[l];
    assert lessons[l..][1..] == lessons[l + 1..];
  }

  /** Index of the first lesson whose description is missing, or the number
      of lessons. */
  function FirstMissing(courseInfoPath: string, lessons: seq<Lesson>, lessonFiles: map<string, LessonInfo>): (k: nat)
    ensures k <= |lessons|
    ensures forall j :: 0 <= j < k ==> LessonInfoPath(courseInfoPath, lessons[j].path) in lessonFiles
    ensures k < |lessons| ==> LessonInfoPath(courseInfoPath, lessons[k].path) !in lessonFiles
    decreases |lessons|
  {
    if lessons == [] || LessonInfoPath(courseInfoPath, lessons[0].path) !in lessonFiles then 0
    else 1 + FirstMissing(courseInfoPath, lessons[1..], lessonFiles)
  }

  /** The lessons are read in course order up to the first missing
      description, which raises `FileNotFoundError` for its path. */
  lemma {:induction false} LoadLessonsStopsAtFirstMissing(courseInfoPath: string, lessons: seq<Lesson>,
                                                         lessonFiles: map<string, LessonInfo>)
    ensures var load := LoadLessons(courseInfoPath, lessons, lessonFiles);
            var k := FirstMissing(courseInfoPath, lessons, lessonFiles);
            && |load.0| == k
            && (forall j :: 0 <= j < k ==> load.0[j] == lessonFiles[LessonInfoPath(courseInfoPath, lessons[j].path)])
            && load.1 == (if k == |lessons| then Ok else Raised(FileNotFound(LessonInfoPath(courseInfoPath, lessons[k].path))))
    decreases |lessons|
  {
    if lessons != [] && LessonInfoPath(courseInfoPath, lessons[0].path) in lessonFiles {
      LoadLessonsStopsAtFirstMissing(courseInfoPath, lessons[1..], lessonFiles);
      var load := LoadLessons(courseInfoPath, lessons, lessonFiles);
      var k := FirstMissing(courseInfoPath, lessons, lessonFiles);
      forall j | 1 <= j < k
        ensures load.0[j] == lessonFiles[LessonInfoPath(courseInfoPath, lessons[j].path)]
      {
        assert lessons[1..][j - 1] == lessons[j];
      }
      assert k < |lessons| ==> lessons[1..][k - 1] == lessons[k];
    }
  }

  // ---------------------------------------------------------------------
  // The deck and the export

  /** `genanki.Deck(DECK_ID, name)`, which `add_note` grows in place. */
  class Deck {
    const id: int
    const name: string
    var notes: seq<Note>

    constructor (id: int, name: string)
      ensures this.id == id && this.name == name && notes == []
    {
      this.id := id;
      this.name := name;
      this.notes := [];
    }

    method AddNote(note: Note)
      modifies this
      ensures notes == old(notes) + [note]
    {
      notes := notes + [note];
    }
  }

  /**
    The export script. `courseFiles` and `lessonFiles` are the description
    files on disk, already parsed. A missing course description raises before
    any deck exists; a missing lesson description raises after the notes of
    the lessons before it were added.
  */
  method ExportToAnki(coursePath: string, courseFiles: map<string, CourseInfo>, lessonFiles: map<string, LessonInfo>)
    returns (deck: Deck?, outcome: Outcome)
    ensures var courseInfoPath := Join(coursePath, CourseInfoFile);
            courseInfoPath !in courseFiles ==> deck == null && outcome == Raised(FileNotFound(courseInfoPath))
    ensures var courseInfoPath := Join(coursePath, CourseInfoFile);
            courseInfoPath in courseFiles ==>
              var course := courseFiles[courseInfoPath];
              var load := LoadLessons(courseInfoPath, course.lessons, lessonFiles);
              && deck != null && fresh(deck)
              && deck.id == course.deckId && deck.name == course.name
              && deck.notes == NotesOf(BuildModel(course), load.0)
              && outcome == load.1
  {
    var courseInfoPath := Join(coursePath, CourseInfoFile);
    if courseInfoPath !in courseFiles {
      return null, Raised(FileNotFound(courseInfoPath));
    }
    var course := courseFiles[courseInfoPath];
    var model := BuildModel(course);
    deck := new Deck(course.deckId, course.name);
    ghost var load := LoadLessons(courseInfoPath, course.lessons, lessonFiles);
    ghost var loaded: seq<LessonInfo> := [];
    var l := 0;
    assert course.lessons[l..] == course.lessons;
    assert loaded + load.0 == load.0;
    while l < |course.lessons|
      invariant 0 <= l <= |course.lessons|
      invariant var rest := LoadLessons(courseInfoPath, course.lessons[l..], lessonFiles);
                load == (loaded + rest.0, rest.1)
      invariant deck.notes == NotesOf(model, loaded)
    {
      var lessonPath := Join(Join(Dirname(courseInfoPath), course.lessons[l].path), LessonInfoFile);
      LoadLessonsFrom(courseInfoPath, course.lessons, lessonFiles, l);
      ghost var rest := LoadLessons(courseInfoPath, course.lessons[l + 1..], lessonFiles);
      if lessonPath !in lessonFiles {
        assert loaded + [] == loaded;
        return deck, Raised(FileNotFound(lessonPath));
      }
      var lessonInfo := lessonFiles[lessonPath];
      AddLessonNotes(deck, model, lessonInfo.phrases);
      assert loaded + ([lessonInfo] + rest.0) == (loaded + [lessonInfo]) + rest.0;
      NotesOfAppend(model, loaded, lessonInfo);
      loaded := loaded + [lessonInfo];
      l := l + 1;
    }
    assert course.lessons[l..] == [];
    assert loaded + [] == loaded;
    outcome := Ok;
  }

  /** The inner loop: one note per phrase of a lesson, added in order. */
  method AddLessonNotes(deck: Deck, model: Model, phrases: seq<Phrase>)
    modifies deck
    ensures deck.notes == old(deck.notes) + LessonNotes(model, phrases)
  {
    ghost var notes0 := deck.notes;
    var p := 0;
    while p < |phrases|
      invariant 0 <= p <= |phrases|
      invariant deck.notes == notes0 + LessonNotes(model, phrases[..p])
    {
      var phrase := phrases[p];
      var note := Note(model, [phrase.target, phrase.source, AudioField(phrase.sourceAudio)]);
      deck.AddNote(note);
      assert phrases[..p + 1][..p] == phrases[..p];
      p := p + 1;
    }
    assert phrases[..p] == phrases;
  }
}
