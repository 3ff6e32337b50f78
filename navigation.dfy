/**
 * The navigation state of src/App.jsx: which page is shown (`view`), the
 * active subject and topic, the lists on screen, the one-time seeding of
 * the subjects collection, the "last viewed" pointers kept in the
 * browser's localStorage (a string-to-string map here) and the handlers
 * the pages call.
 *
 * React's effects are explicit: after a handler's state updates are
 * committed, the persistence effect runs when one of its dependencies
 * (view, activeSubject, activeTopic) changed.
 */
module Navigation {
  import opened Records
  import opened Store

  const VIEW_KEY := "app_view"
  const SUBJECT_KEY := "app_activeSubjectId"
  const TOPIC_KEY := "app_activeTopicId"

  const HOME := "home"
  const SUBJECT := "subject"
  const TOPIC := "topic"

  const HTML_EXT := ".html"

  /** The dependencies of the persistence effect. */
  datatype NavState = NavState(view: string, subject: Option<Subject>, topic: Option<Topic>)

  /** What the file picker hands back: the file's name and its text. */
  datatype File = File(name: string, text: string)

  /** localStorage.getItem: the stored string, or null (None). */
  function GetItem(storage: map<string, string>, key: string): Option<string>
  {
    if key in storage then Some(storage[key]) else None
  }

  /** JavaScript truthiness of a getItem result: neither null nor the empty string. */
  predicate Truthy(v: Option<string>)
  {
    v.Some? && v.value != ""
  }

  /**
   * The persistence effect: the storage after it runs for the state `s`.
   * The view is always written; the two ids are removed, written or left
   * alone according to the view and to which entities are active.
   */
  function Persisted(storage: map<string, string>, s: NavState): (r: map<string, string>)
    ensures GetItem(r, VIEW_KEY) == Some(s.view)
    ensures s.view == HOME ==> GetItem(r, SUBJECT_KEY) == None && GetItem(r, TOPIC_KEY) == None
    ensures s.view == SUBJECT ==> GetItem(r, TOPIC_KEY) == None
    ensures (s.view == SUBJECT || s.view == TOPIC) && s.subject.Some? ==>
              GetItem(r, SUBJECT_KEY) == Some(s.subject.value.id)
    ensures s.view == TOPIC && s.topic.Some? ==> GetItem(r, TOPIC_KEY) == Some(s.topic.value.id)
    ensures (s.view != HOME && s.subject.None?) || (s.view != SUBJECT && s.view != TOPIC && s.view != HOME) ==>
              GetItem(r, SUBJECT_KEY) == GetItem(storage, SUBJECT_KEY)
    ensures (s.view == TOPIC && s.topic.None?) || (s.view != SUBJECT && s.view != TOPIC && s.view != HOME) ==>
              GetItem(r, TOPIC_KEY) == GetItem(storage, TOPIC_KEY)
    ensures forall k :: k != VIEW_KEY && k != SUBJECT_KEY && k != TOPIC_KEY ==> GetItem(r, k) == GetItem(storage, k)
  {
    var withView := storage[VIEW_KEY := s.view];
    var withSubject := if s.subject.Some? then withView[SUBJECT_KEY := s.subject.value.id] else withView;
    if s.view == HOME then
      withView - {SUBJECT_KEY, TOPIC_KEY}
    else if s.view == SUBJECT then
      withSubject - {TOPIC_KEY}
    else if s.view == TOPIC then
      if s.topic.Some? then withSubject[TOPIC_KEY := s.topic.value.id] else withSubject
    else
      withView
  }

  /** Running the effect a second time for the same state changes nothing. */
  lemma PersistedIdempotent(storage: map<string, string>, s: NavState)
    ensures Persisted(Persisted(storage, s), s) == Persisted(storage, s)
  {
    var once := Persisted(storage, s);
    var twice := Persisted(once, s);
    forall k ensures GetItem(twice, k) == GetItem(once, k) {
    }
    assert forall k :: k in twice <==> GetItem(twice, k).Some?;
    assert forall k :: k in once <==> GetItem(once, k).Some?;
  }

  /** The storage after a commit: the effect runs only when one of its dependencies changed. */
  function Committed(storage: map<string, string>, before: NavState, after: NavState): map<string, string>
  {
    if before == after then storage else Persisted(storage, after)
  }

  /** First element of `subjects` whose id is `id` (Array.prototype.find). */
  function FindSubject(subjects: seq<Subject>, id: string): (r: Option<Subject>)
    ensures r.None? <==> forall i :: 0 <= i < |subjects| ==> subjects[i].id != id
    ensures r.Some? ==> r.value.id == id && r.value in subjects
    ensures r.Some? ==> exists i :: 0 <= i < |subjects| && subjects[i] == r.value &&
                                     forall j :: 0 <= j < i ==> subjects[j].id != id
  {
    if subjects == [] then None
    else if subjects[0].id == id then Some(subjects[0])
    else FindSubject(subjects[1..], id)
  }

  /** With distinct ids, `find` returns the one subject carrying the id. */
  lemma {:induction false} FindSubjectUnique(subjects: seq<Subject>, s: Subject)
    requires DistinctSubjectIds(subjects) && s in subjects
    ensures FindSubject(subjects, s.id) == Some(s)
  {
    var r := FindSubject(subjects, s.id);
    var j :| 0 <= j < |subjects| && subjects[j] == s;
    assert r.Some?;
    var i :| 0 <= i < |subjects| && subjects[i] == r.value;
    assert i == j;
  }

  /** The subject a restore trusts: the saved subject id, when it is truthy and still resolves. */
  function RestoredSubject(saved: map<string, string>, subjects: seq<Subject>): Option<Subject>
  {
    var id := GetItem(saved, SUBJECT_KEY);
    if Truthy(id) then FindSubject(subjects, id.value) else None
  }

  /** The active topic after a restore: the saved topic when getTopic finds it, else `current`. */
  function RestoredTopic(saved: map<string, string>, topics: map<string, Topic>, current: Option<Topic>): Option<Topic>
  {
    var id := GetItem(saved, TOPIC_KEY);
    if Truthy(id) && id.value in topics then Some(topics[id.value]) else current
  }

  /** The view after a restore of a resolved subject: the saved view when truthy, else `current`. */
  function RestoredView(saved: map<string, string>, current: string): string
  {
    var v := GetItem(saved, VIEW_KEY);
    if Truthy(v) then v.value else current
  }

  /**
   * What the persistence effect writes is what a restore reads back: the
   * active subject of a subject or topic page is found again among
   * subjects with distinct ids, and so is the view.
   */
  lemma PersistThenRestore(storage: map<string, string>, s: NavState, subjects: seq<Subject>)
    requires s.view == SUBJECT || s.view == TOPIC
    requires s.subject.Some? && s.subject.value.id != "" && s.subject.value in subjects
    requires DistinctSubjectIds(subjects)
    ensures RestoredSubject(Persisted(storage, s), subjects) == s.subject
    ensures RestoredView(Persisted(storage, s), HOME) == s.view
  {
    FindSubjectUnique(subjects, s.subject.value);
  }

  /**
   * The effect as it runs on the first commit (home, nothing active)
   * leaves nothing for a restore to trust, whatever was saved before.
   */
  lemma MountEffectErasesPointers(storage: map<string, string>, subjects: seq<Subject>)
    ensures RestoredSubject(Persisted(storage, NavState(HOME, None, None)), subjects) == None
    ensures GetItem(Persisted(storage, NavState(HOME, None, None)), VIEW_KEY) == Some(HOME)
  {
  }

  /** A concrete previous session on a subject page that the as-written launch does not restore. */
  lemma MountForgetsSavedSubject()
    ensures var cardio := Subject("s1", "Cardio", "#ef4444");
            var saved := map[VIEW_KEY := SUBJECT, SUBJECT_KEY := "s1"];
            && RestoredSubject(saved, [cardio]) == Some(cardio)
            && RestoredSubject(Persisted(saved, NavState(HOME, None, None)), [cardio]) == None
  {
    var cardio := Subject("s1", "Cardio", "#ef4444");
    var saved := map[VIEW_KEY := SUBJECT, SUBJECT_KEY := "s1"];
    assert GetItem(saved, SUBJECT_KEY) == Some("s1");
    assert FindSubject([cardio], "s1") == Some(cardio);
  }

  /** `i` is a position where `pat` occurs in `s`. */
  predicate OccursAt(s: string, pat: string, i: nat)
  {
    i + |pat| <= |s| && s[i..i + |pat|] == pat
  }

  /** The first position at or after `from` where `pat` occurs in `s`. */
  function IndexFrom(s: string, pat: string, from: nat): (r: Option<nat>)
    requires from <= |s|
    ensures r.Some? ==> from <= r.value && OccursAt(s, pat, r.value)
    ensures r.Some? ==> forall j :: from <= j < r.value ==> !OccursAt(s, pat, j)
    ensures r.None? ==> forall j :: from <= j <= |s| ==> !OccursAt(s, pat, j)
    decreases |s| - from
  {
    if OccursAt(s, pat, from) then Some(from)
    else if from == |s| then None
    else IndexFrom(s, pat, from + 1)
  }

  /** `file.name.replace('.html', '')`: a string pattern replaces its first occurrence only. */
  function TopicTitle(fileName: string): string
  {
    match IndexFrom(fileName, HTML_EXT, 0)
    case None => fileName
    case Some(i) => fileName[..i] + fileName[i + |HTML_EXT|..]
  }

  /** A name without ".html" is kept whole as the title. */
  lemma TitleWithoutExtension(fileName: string)
    requires forall j :: !OccursAt(fileName, HTML_EXT, j)
    ensures TopicTitle(fileName) == fileName
  {
  }

  /**
   * The first ".html" is the one removed and any later one is kept: for a
   * base name free of ".html", `base + ".html" + rest` becomes `base + rest`.
   */
  lemma TitleDropsFirstExtension(base: string, rest: string)
    requires forall j :: !OccursAt(base, HTML_EXT, j)
    ensures TopicTitle(base + HTML_EXT + rest) == base + rest
  {
    var s := base + HTML_EXT + rest;
    assert OccursAt(s, HTML_EXT, |base|) by {
      assert s[|base|..|base| + 5] == HTML_EXT;
    }
    forall j | 0 <= j < |base|
      ensures !OccursAt(s, HTML_EXT, j)
    {
      if j + 5 <= |base| {
        assert s[j..j + 5] == base[j..j + 5];
        assert !OccursAt(base, HTML_EXT, j);
      } else {
        assert s[|base|] == '.';
      }
    }
    assert IndexFrom(s, HTML_EXT, 0) == Some(|base|);
    assert s[..|base|] == base;
    assert s[|base| + 5..] == rest;
  }

  /** The record handleAddTopic builds from a picked file. */
  function NewTopic(id: string, subjectId: string, file: File, now: int): Topic
  {
    Topic(id, subjectId, TopicTitle(file.name), file.text, now)
  }

  /** Seeding with a non-empty list leaves the subjects non-empty, so a later launch does not seed again. */
  lemma SeedingRunsOnce(initialSubjects: seq<Subject>)
    requires initialSubjects != []
    ensures PutAll(map[], initialSubjects) != map[]
  {
    PutAllKeys(map[], initialSubjects);
    assert initialSubjects[0].id in PutAll(map[], initialSubjects);
  }

  /** The App component's state, its localStorage and the database it talks to. */
  class App {
    const db: Database
    var view: string
    var activeSubject: Option<Subject>
    var activeTopic: Option<Topic>
    var subjects: seq<Subject>
    var topics: seq<Topic>
    var loading: bool
    var localStorage: map<string, string>

    ghost predicate Valid()
      reads this, db
    {
      db.Valid()
    }

    /** The persistence effect's dependencies. */
    function Nav(): NavState
      reads this
    {
      NavState(view, activeSubject, activeTopic)
    }

    /** The saved pointers describe the current state: running the effect would change nothing. */
    ghost predicate Synced()
      reads this
    {
      localStorage == Persisted(localStorage, Nav())
    }

    /** The first render: home page, nothing active, empty lists, loading. */
    constructor (db: Database, localStorage: map<string, string>)
      requires db.Valid()
      ensures Valid() && this.db == db && this.localStorage == localStorage
      ensures Nav() == NavState(HOME, None, None)
      ensures subjects == [] && topics == [] && loading
    {
      this.db := db;
      view := HOME;
      activeSubject := None;
      activeTopic := None;
      subjects := [];
      topics := [];
      loading := true;
      this.localStorage := localStorage;
    }

    /** The persistence effect (App.jsx lines 70-82). */
    method PersistState()
      modifies this`localStorage
      ensures localStorage == Persisted(old(localStorage), Nav())
      ensures Synced()
    {
      localStorage := localStorage[VIEW_KEY := view];
      if view == HOME {
        localStorage := localStorage - {SUBJECT_KEY, TOPIC_KEY};
      } else if view == SUBJECT {
        if activeSubject.Some? {
          localStorage := localStorage[SUBJECT_KEY := activeSubject.value.id];
        }
        localStorage := localStorage - {TOPIC_KEY};
      } else if view == TOPIC {
        if activeSubject.Some? {
          localStorage := localStorage[SUBJECT_KEY := activeSubject.value.id];
        }
        if activeTopic.Some? {
          localStorage := localStorage[TOPIC_KEY := activeTopic.value.id];
        }
      }
      PersistedIdempotent(old(localStorage), Nav());
    }

    /** A commit: the persistence effect runs when its dependencies differ from `before`. */
    method AfterRender(before: NavState)
      modifies this`localStorage
      ensures localStorage == Committed(old(localStorage), before, Nav())
      ensures Nav() != before ==> Synced()
    {
      if Nav() != before {
        PersistState();
      }
    }

    /** The first half of loadData: read the subjects, seeding them when the collection is empty. */
    method LoadSubjects(initialSubjects: seq<Subject>)
      requires Valid()
      modifies this`subjects, db
      ensures Valid()
      ensures db.topics == old(db.topics)
      ensures old(db.subjects) == map[] ==>
                subjects == initialSubjects && db.subjects == PutAll(map[], initialSubjects)
      ensures old(db.subjects) != map[] ==>
                db.subjects == old(db.subjects) && ListsSubjects(subjects, db.subjects)
    {
      var loaded := db.GetSubjects();
      if |loaded| == 0 {
        assert db.subjects == map[] by {
          assert |db.subjects.Keys| == 0;
        }
        for i := 0 to |initialSubjects|
          invariant db.Valid()
          invariant db.subjects == PutAll(map[], initialSubjects[..i])
          invariant db.topics == old(db.topics)
        {
          assert initialSubjects[..i + 1][..i] == initialSubjects[..i];
          db.SaveSubject(initialSubjects[i]);
        }
        assert initialSubjects[..|initialSubjects|] == initialSubjects;
        loaded := initialSubjects;
      }
      subjects := loaded;
    }

    /** The second half of loadData: trust the saved pointers read from `saved` only when they resolve. */
    method RestoreFrom(saved: map<string, string>)
      requires Valid()
      modifies this`view, this`activeSubject, this`activeTopic, this`topics, db
      ensures Valid()
      ensures db.subjects == old(db.subjects) && db.topics == old(db.topics)
      ensures RestoredSubject(saved, subjects).None? ==> Nav() == old(Nav()) && topics == old(topics)
      ensures RestoredSubject(saved, subjects).Some? ==>
                && activeSubject == RestoredSubject(saved, subjects)
                && ListsTopicsOf(topics, db.topics, activeSubject.value.id)
                && activeTopic == RestoredTopic(saved, db.topics, old(activeTopic))
                && view == RestoredView(saved, old(view))
    {
      var savedView := GetItem(saved, VIEW_KEY);
      var savedSubjectId := GetItem(saved, SUBJECT_KEY);
      var savedTopicId := GetItem(saved, TOPIC_KEY);
      if Truthy(savedSubjectId) {
        var subject := FindSubject(subjects, savedSubjectId.value);
        if subject.Some? {
          activeSubject := subject;
          topics := db.GetTopicsBySubject(subject.value.id);
          if Truthy(savedTopicId) {
            var topic := db.GetTopic(savedTopicId.value);
            if topic.Some? {
              activeTopic := topic;
            }
          }
          if Truthy(savedView) {
            view := savedView.value;
          }
        }
      }
    }

    /** loadData, from the moment it reads localStorage on. */
    method LoadData(initialSubjects: seq<Subject>)
      requires Valid()
      modifies this`subjects, this`view, this`activeSubject, this`activeTopic, this`topics, this`loading, db
      ensures Valid() && !loading
      ensures old(db.subjects) == map[] ==> subjects == initialSubjects && db.subjects == PutAll(map[], initialSubjects)
      ensures old(db.subjects) != map[] ==> db.subjects == old(db.subjects) && ListsSubjects(subjects, db.subjects)
      ensures db.topics == old(db.topics)
      ensures RestoredSubject(localStorage, subjects).None? ==> Nav() == old(Nav()) && topics == old(topics)
      ensures RestoredSubject(localStorage, subjects).Some? ==>
                && activeSubject == RestoredSubject(localStorage, subjects)
                && ListsTopicsOf(topics, db.topics, activeSubject.value.id)
                && activeTopic == RestoredTopic(localStorage, db.topics, old(activeTopic))
                && view == RestoredView(localStorage, old(view))
    {
      LoadSubjects(initialSubjects);
      RestoreFrom(localStorage);
      loading := false;
    }

    /**
     * The first commit as written. Both mount effects run in declaration
     * order; loadData runs only up to its first `await`, so the persistence
     * effect writes the home state before loadData reads the saved pointers.
     * Whatever the previous session saved, the app starts at home.
     */
    method Mount(initialSubjects: seq<Subject>)
      requires Valid() && Nav() == NavState(HOME, None, None)
      modifies this, db
      ensures Valid() && !loading
      ensures Nav() == NavState(HOME, None, None)
      ensures localStorage == Persisted(old(localStorage), NavState(HOME, None, None))
      ensures old(db.subjects) == map[] ==> subjects == initialSubjects && db.subjects == PutAll(map[], initialSubjects)
      ensures old(db.subjects) != map[] ==> db.subjects == old(db.subjects) && ListsSubjects(subjects, db.subjects)
      ensures db.topics == old(db.topics)
    {
      var before := Nav();
      PersistState();
      LoadSubjects(initialSubjects);
      MountEffectErasesPointers(old(localStorage), subjects);
      RestoreFrom(localStorage);
      loading := false;
      AfterRender(before);
    }

    /**
     * The first commit with the saved pointers read before the persistence
     * effect overwrites them: a saved subject that still resolves is
     * restored, with its topics, the saved topic when it is found and the
     * saved view.
     */
    method MountRestoring(initialSubjects: seq<Subject>)
      requires Valid() && Nav() == NavState(HOME, None, None)
      modifies this, db
      ensures Valid() && !loading
      ensures old(db.subjects) == map[] ==> subjects == initialSubjects && db.subjects == PutAll(map[], initialSubjects)
      ensures old(db.subjects) != map[] ==> db.subjects == old(db.subjects) && ListsSubjects(subjects, db.subjects)
      ensures db.topics == old(db.topics)
      ensures RestoredSubject(old(localStorage), subjects).None? ==> Nav() == NavState(HOME, None, None)
      ensures RestoredSubject(old(localStorage), subjects).Some? ==>
                && activeSubject == RestoredSubject(old(localStorage), subjects)
                && ListsTopicsOf(topics, db.topics, activeSubject.value.id)
                && activeTopic == RestoredTopic(old(localStorage), db.topics, None)
                && view == RestoredView(old(localStorage), HOME)
      ensures Synced()
    {
      var saved := localStorage;
      var before := Nav();
      PersistState();
      LoadSubjects(initialSubjects);
      RestoreFrom(saved);
      loading := false;
      AfterRender(before);
    }

    /** handleSubjectClick: open the subject page with the subject's topics from the database. */
    method HandleSubjectClick(subject: Subject)
      requires Valid()
      modifies this`activeSubject, this`topics, this`view, this`localStorage, db
      ensures Valid()
      ensures Nav() == NavState(SUBJECT, Some(subject), old(activeTopic))
      ensures ListsTopicsOf(topics, db.topics, subject.id)
      ensures db.subjects == old(db.subjects) && db.topics == old(db.topics)
      ensures localStorage == Committed(old(localStorage), old(Nav()), Nav())
      ensures old(Synced()) ==> Synced()
    {
      var before := Nav();
      activeSubject := Some(subject);
      topics := db.GetTopicsBySubject(subject.id);
      view := SUBJECT;
      AfterRender(before);
    }

    /** handleTopicClick: open the topic page on the given topic. */
    method HandleTopicClick(topic: Topic)
      modifies this`activeTopic, this`view, this`localStorage
      ensures Nav() == NavState(TOPIC, old(activeSubject), Some(topic))
      ensures localStorage == Committed(old(localStorage), old(Nav()), Nav())
      ensures old(Synced()) ==> Synced()
    {
      var before := Nav();
      activeTopic := Some(topic);
      view := TOPIC;
      AfterRender(before);
    }

    /** handleBack: topic page to subject page, subject page to home, home stays. */
    method HandleBack()
      modifies this`activeSubject, this`activeTopic, this`view, this`localStorage
      ensures old(view) == TOPIC ==> Nav() == NavState(SUBJECT, old(activeSubject), None)
      ensures old(view) == SUBJECT ==> Nav() == NavState(HOME, None, old(activeTopic))
      ensures old(view) != TOPIC && old(view) != SUBJECT ==> Nav() == old(Nav()) && localStorage == old(localStorage)
      ensures localStorage == Committed(old(localStorage), old(Nav()), Nav())
      ensures old(Synced()) ==> Synced()
    {
      var before := Nav();
      if view == TOPIC {
        view := SUBJECT;
        activeTopic := None;
      } else if view == SUBJECT {
        view := HOME;
        activeSubject := None;
      }
      AfterRender(before);
    }

    /**
     * handleBack as it is evidently meant to work: leaving a topic page
     * also reloads the subject's topics, so the list shows what the
     * viewer saved while the topic was open.
     */
    method HandleBackReloading()
      requires Valid()
      modifies this`activeSubject, this`activeTopic, this`view, this`topics, this`localStorage, db
      ensures Valid()
      ensures old(view) == TOPIC ==> Nav() == NavState(SUBJECT, old(activeSubject), None)
      ensures old(view) == TOPIC && activeSubject.Some? ==> ListsTopicsOf(topics, db.topics, activeSubject.value.id)
      ensures old(view) == SUBJECT ==> Nav() == NavState(HOME, None, old(activeTopic)) && topics == old(topics)
      ensures old(view) != TOPIC && old(view) != SUBJECT ==>
                Nav() == old(Nav()) && localStorage == old(localStorage) && topics == old(topics)
      ensures db.subjects == old(db.subjects) && db.topics == old(db.topics)
      ensures localStorage == Committed(old(localStorage), old(Nav()), Nav())
      ensures old(Synced()) ==> Synced()
    {
      var before := Nav();
      if view == TOPIC {
        view := SUBJECT;
        activeTopic := None;
        if activeSubject.Some? {
          topics := db.GetTopicsBySubject(activeSubject.value.id);
        }
      } else if view == SUBJECT {
        view := HOME;
        activeSubject := None;
      }
      AfterRender(before);
    }

    /**
     * handleAddTopic: a picked file becomes a new topic of the active
     * subject (title = name without its first ".html", content = text),
     * then the list is reloaded. No file, no change.
     */
    method HandleAddTopic(file: Option<File>, newId: string, now: int)
      requires Valid() && activeSubject.Some?
      modifies this`topics, db
      ensures Valid()
      ensures db.subjects == old(db.subjects)
      ensures file.None? ==> db.topics == old(db.topics) && topics == old(topics)
      ensures file.Some? ==>
                && db.topics == old(db.topics)[newId := NewTopic(newId, activeSubject.value.id, file.value, now)]
                && ListsTopicsOf(topics, db.topics, activeSubject.value.id)
    {
      if file.None? {
        return;
      }
      var newTopic := NewTopic(newId, activeSubject.value.id, file.value, now);
      db.SaveTopic(newTopic);
      topics := db.GetTopicsBySubject(activeSubject.value.id);
    }

    /** The demo-topic callback of the subject page: save the topic and reload the list. */
    method HandleAddDemoTopic(demo: Topic)
      requires Valid() && activeSubject.Some?
      modifies this`topics, db
      ensures Valid()
      ensures db.subjects == old(db.subjects)
      ensures db.topics == old(db.topics)[demo.id := demo]
      ensures ListsTopicsOf(topics, db.topics, activeSubject.value.id)
    {
      db.SaveTopic(demo);
      topics := db.GetTopicsBySubject(activeSubject.value.id);
    }

    /** handleDeleteTopic: only a confirmed deletion touches the database or the list. */
    method HandleDeleteTopic(topicId: string, confirmed: bool)
      requires Valid() && activeSubject.Some?
      modifies this`topics, db
      ensures Valid()
      ensures !confirmed ==> unchanged(db) && topics == old(topics)
      ensures confirmed ==>
                && db.topics == old(db.topics) - {topicId}
                && db.subjects == old(db.subjects)
                && ListsTopicsOf(topics, db.topics, activeSubject.value.id)
    {
      if confirmed {
        db.DeleteTopic(topicId);
        topics := db.GetTopicsBySubject(activeSubject.value.id);
      }
    }

    /** handleCreateSubject: save a subject under a fresh id and append it to the list on screen. */
    method HandleCreateSubject(name: string, color: string, newId: string)
      requires Valid()
      modifies this`subjects, db
      ensures Valid()
      ensures subjects == old(subjects) + [Subject(newId, name, color)]
      ensures db.subjects == old(db.subjects)[newId := Subject(newId, name, color)]
      ensures db.topics == old(db.topics)
    {
      var newSubject := Subject(newId, name, color);
      db.SaveSubject(newSubject);
      subjects := subjects + [newSubject];
    }
  }
}
