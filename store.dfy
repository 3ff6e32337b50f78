/**
 * The on-device database of src/lib/db.js: one database holding two
 * independent collections, `subjects` and `topics`, both keyed by `id`,
 * with a secondary index on `topics.subjectId`. Every exported operation
 * first opens the database (which creates the collections when they are
 * missing) and then performs one put, get, scan or delete.
 */
module Store {
  import opened Records

  const DB_VERSION: nat := 1
  const SUBJECTS := "subjects"
  const TOPICS := "topics"

  /** The declaration of one collection: its key path and the names of its indexes. */
  datatype Collection = Collection(keyPath: string, indexes: set<string>)

  const SUBJECTS_DECL := Collection("id", {"name"})
  const TOPICS_DECL := Collection("id", {"subjectId"})

  /**
   * The upgrade callback of initDB: each collection is created, with its
   * key path and index, only when no collection of that name exists yet.
   */
  function Upgrade(schema: map<string, Collection>): (r: map<string, Collection>)
    ensures r.Keys == schema.Keys + {SUBJECTS, TOPICS}
    ensures SUBJECTS !in schema ==> r[SUBJECTS] == SUBJECTS_DECL
    ensures TOPICS !in schema ==> r[TOPICS] == TOPICS_DECL
    ensures forall n :: n in schema ==> r[n] == schema[n]
  {
    var withSubjects := if SUBJECTS in schema then schema else schema[SUBJECTS := SUBJECTS_DECL];
    if TOPICS in withSubjects then withSubjects else withSubjects[TOPICS := TOPICS_DECL]
  }

  /** Opening twice is opening once: a second upgrade leaves every collection as it was. */
  lemma UpgradeIdempotent(schema: map<string, Collection>)
    ensures Upgrade(Upgrade(schema)) == Upgrade(schema)
  {
  }

  /** The schema after opening a database found at `version`: the upgrade runs only below DB_VERSION. */
  function Opened(version: nat, schema: map<string, Collection>): map<string, Collection>
  {
    if version < DB_VERSION then Upgrade(schema) else schema
  }

  /** The subjects collection after putting the records of `s` one after another. */
  function PutAll(m: map<string, Subject>, s: seq<Subject>): map<string, Subject>
  {
    if s == [] then m else PutAll(m, s[..|s| - 1])[s[|s| - 1].id := s[|s| - 1]]
  }

  /** Putting a list adds exactly the ids of the list. */
  lemma {:induction false} PutAllKeys(m: map<string, Subject>, s: seq<Subject>)
    ensures PutAll(m, s).Keys == m.Keys + (set x | x in s :: x.id)
  {
    if s != [] {
      var init, last := s[..|s| - 1], s[|s| - 1];
      PutAllKeys(m, init);
      assert s == init + [last];
      assert (set x | x in s :: x.id) == (set x | x in init :: x.id) + {last.id};
    }
  }

  /** When the ids of the list are distinct, every record of the list is stored as given. */
  lemma {:induction false} PutAllStores(m: map<string, Subject>, s: seq<Subject>)
    requires DistinctSubjectIds(s)
    ensures forall i :: 0 <= i < |s| ==> s[i].id in PutAll(m, s) && PutAll(m, s)[s[i].id] == s[i]
  {
    if s != [] {
      var init := s[..|s| - 1];
      PutAllStores(m, init);
      forall i | 0 <= i < |s|
        ensures s[i].id in PutAll(m, s) && PutAll(m, s)[s[i].id] == s[i]
      {
        if i < |s| - 1 {
          assert init[i] == s[i];
          assert s[i].id != s[|s| - 1].id;
        }
      }
    }
  }

  /** Putting keyed records keeps the collection keyed. */
  lemma {:induction false} PutAllKeyed(m: map<string, Subject>, s: seq<Subject>)
    requires SubjectsKeyed(m)
    ensures SubjectsKeyed(PutAll(m, s))
  {
    if s != [] {
      PutAllKeyed(m, s[..|s| - 1]);
    }
  }

  /** A list of every subject of a keyed collection, each once, is exactly as long as the collection. */
  lemma {:induction false} ListedCount(r: seq<Subject>, m: map<string, Subject>)
    requires SubjectsKeyed(m) && ListsSubjects(r, m)
    ensures |r| == |m|
    decreases |r|
  {
    if r == [] {
      assert m.Keys == {};
    } else {
      var last := r[|r| - 1];
      var init := r[..|r| - 1];
      var rest := m - {last.id};
      forall k | k in rest
        ensures rest[k] in init
      {
        var j :| 0 <= j < |r| && r[j] == m[k];
        assert j != |r| - 1;
        assert init[j] == r[j];
      }
      assert ListsSubjects(init, rest);
      ListedCount(init, rest);
      assert rest.Keys == m.Keys - {last.id};
    }
  }

  /** getAll on the subjects collection: every stored subject, each once. */
  method ScanSubjects(m: map<string, Subject>) returns (r: seq<Subject>)
    requires SubjectsKeyed(m)
    ensures ListsSubjects(r, m)
    ensures |r| == |m|
  {
    var rest := m.Keys;
    r := [];
    while rest != {}
      invariant rest <= m.Keys
      invariant forall i :: 0 <= i < |r| ==> r[i].id in m.Keys - rest && m[r[i].id] == r[i]
      invariant forall k :: k in m.Keys - rest ==> m[k] in r
      invariant DistinctSubjectIds(r)
      decreases rest
    {
      var k :| k in rest;
      r := r + [m[k]];
      rest := rest - {k};
    }
    ListedCount(r, m);
  }

  /** getAllFromIndex('topics', 'subjectId', subjectId): every topic of that subject, each once. */
  method ScanTopicsOf(m: map<string, Topic>, subjectId: string) returns (r: seq<Topic>)
    requires TopicsKeyed(m)
    ensures ListsTopicsOf(r, m, subjectId)
  {
    var rest := m.Keys;
    r := [];
    while rest != {}
      invariant rest <= m.Keys
      invariant forall i :: 0 <= i < |r| ==> r[i].id in m.Keys - rest && m[r[i].id] == r[i] && r[i].subjectId == subjectId
      invariant forall k :: k in m.Keys - rest && m[k].subjectId == subjectId ==> m[k] in r
      invariant DistinctTopicIds(r)
      decreases rest
    {
      var k :| k in rest;
      if m[k].subjectId == subjectId {
        r := r + [m[k]];
      }
      rest := rest - {k};
    }
  }

  /** An index scan comes back empty exactly when no stored topic belongs to the subject. */
  lemma ScanEmptyIffNoTopics(r: seq<Topic>, m: map<string, Topic>, subjectId: string)
    requires ListsTopicsOf(r, m, subjectId)
    ensures r == [] <==> forall k :: k in m ==> m[k].subjectId != subjectId
  {
    if r != [] {
      assert r[0].id in m && m[r[0].id].subjectId == subjectId;
    }
  }

  /** The database handle: the schema of its collections and their records. */
  class Database {
    var version: nat
    var schema: map<string, Collection>
    var subjects: map<string, Subject>
    var topics: map<string, Topic>

    ghost predicate Valid()
      reads this
    {
      && version <= DB_VERSION
      && (version == DB_VERSION ==> SUBJECTS in schema && TOPICS in schema)
      && (SUBJECTS !in schema ==> subjects == map[])
      && (TOPICS !in schema ==> topics == map[])
      && SubjectsKeyed(subjects)
      && TopicsKeyed(topics)
    }

    /** The database as a first launch finds it: never opened, nothing stored. */
    constructor ()
      ensures Valid()
      ensures version == 0 && schema == map[] && subjects == map[] && topics == map[]
    {
      version := 0;
      schema := map[];
      subjects := map[];
      topics := map[];
    }

    /** initDB: open at DB_VERSION, running the upgrade callback when the stored version is older. */
    method InitDB()
      requires Valid()
      modifies this
      ensures Valid() && version == DB_VERSION
      ensures schema == Opened(old(version), old(schema))
      ensures subjects == old(subjects) && topics == old(topics)
    {
      if version < DB_VERSION {
        schema := Upgrade(schema);
        version := DB_VERSION;
      }
    }

    /** getSubjects: every stored subject, each once. */
    method GetSubjects() returns (r: seq<Subject>)
      requires Valid()
      modifies this
      ensures Valid() && version == DB_VERSION && schema == Opened(old(version), old(schema))
      ensures subjects == old(subjects) && topics == old(topics)
      ensures ListsSubjects(r, subjects) && |r| == |subjects|
    {
      InitDB();
      r := ScanSubjects(subjects);
    }

    /** saveSubject: upsert by `id`; the topics are not touched. */
    method SaveSubject(s: Subject)
      requires Valid()
      modifies this
      ensures Valid() && version == DB_VERSION && schema == Opened(old(version), old(schema))
      ensures subjects == old(subjects)[s.id := s]
      ensures topics == old(topics)
    {
      InitDB();
      subjects := subjects[s.id := s];
    }

    /** getTopicsBySubject: the index scan on `subjectId`. */
    method GetTopicsBySubject(subjectId: string) returns (r: seq<Topic>)
      requires Valid()
      modifies this
      ensures Valid() && version == DB_VERSION && schema == Opened(old(version), old(schema))
      ensures subjects == old(subjects) && topics == old(topics)
      ensures ListsTopicsOf(r, topics, subjectId)
    {
      InitDB();
      r := ScanTopicsOf(topics, subjectId);
    }

    /** getTopic: the record stored under `id`, or nothing (undefined) when there is none. */
    method GetTopic(id: string) returns (r: Option<Topic>)
      requires Valid()
      modifies this
      ensures Valid() && version == DB_VERSION && schema == Opened(old(version), old(schema))
      ensures subjects == old(subjects) && topics == old(topics)
      ensures r.Some? <==> id in topics
      ensures r.Some? ==> r.value == topics[id] && r.value.id == id
    {
      InitDB();
      r := if id in topics then Some(topics[id]) else None;
    }

    /** saveTopic: upsert by `id`; the subjects are not touched. */
    method SaveTopic(t: Topic)
      requires Valid()
      modifies this
      ensures Valid() && version == DB_VERSION && schema == Opened(old(version), old(schema))
      ensures topics == old(topics)[t.id := t]
      ensures subjects == old(subjects)
    {
      InitDB();
      topics := topics[t.id := t];
    }

    /** deleteTopic: remove the key; an absent key is a no-op, not an error. */
    method DeleteTopic(id: string)
      requires Valid()
      modifies this
      ensures Valid() && version == DB_VERSION && schema == Opened(old(version), old(schema))
      ensures topics == old(topics) - {id}
      ensures id !in old(topics) ==> topics == old(topics)
      ensures subjects == old(subjects)
    {
      InitDB();
      topics := topics - {id};
    }
  }

  /** saveTopic then getTopic gives back the saved record; the subjects are untouched throughout. */
  method SaveThenGet(db: Database, t: Topic) returns (r: Option<Topic>)
    requires db.Valid()
    modifies db
    ensures db.Valid()
    ensures r == Some(t)
    ensures db.subjects == old(db.subjects)
  {
    db.SaveTopic(t);
    r := db.GetTopic(t.id);
  }

  /** deleteTopic then getTopic finds nothing, whether or not the id was stored. */
  method DeleteThenGet(db: Database, id: string) returns (r: Option<Topic>)
    requires db.Valid()
    modifies db
    ensures db.Valid()
    ensures r == None
    ensures forall k :: k in old(db.topics) && k != id ==> k in db.topics && db.topics[k] == old(db.topics)[k]
  {
    db.DeleteTopic(id);
    r := db.GetTopic(id);
  }
}
