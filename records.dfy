/**
 * The two record kinds the application keeps on the device, and the
 * vocabulary for saying that a list returned by a scan holds exactly the
 * records of a collection.
 */
module Records {

  datatype Option<+T> = None | Some(value: T)

  /** A record of the `subjects` collection; `id` is its key. */
  datatype Subject = Subject(id: string, name: string, color: string)

  /** A record of the `topics` collection; `id` is its key, `subjectId` its indexed parent. */
  datatype Topic = Topic(id: string, subjectId: string, title: string, content: string, lastModified: int)

  /** Every subject is stored under its own `id` (the collection's key path). */
  ghost predicate SubjectsKeyed(m: map<string, Subject>)
  {
    forall k :: k in m ==> m[k].id == k
  }

  /** Every topic is stored under its own `id` (the collection's key path). */
  ghost predicate TopicsKeyed(m: map<string, Topic>)
  {
    forall k :: k in m ==> m[k].id == k
  }

  /** No two subjects of the list share an `id`. */
  ghost predicate DistinctSubjectIds(r: seq<Subject>)
  {
    forall i, j :: 0 <= i < j < |r| ==> r[i].id != r[j].id
  }

  /** No two topics of the list share an `id`. */
  ghost predicate DistinctTopicIds(r: seq<Topic>)
  {
    forall i, j :: 0 <= i < j < |r| ==> r[i].id != r[j].id
  }

  /** `r` lists every subject of `m` exactly once and nothing else. */
  ghost predicate ListsSubjects(r: seq<Subject>, m: map<string, Subject>)
  {
    && (forall i :: 0 <= i < |r| ==> r[i].id in m && m[r[i].id] == r[i])
    && DistinctSubjectIds(r)
    && (forall k :: k in m ==> m[k] in r)
  }

  /** `r` lists every topic of `m` whose parent is `subjectId` exactly once, and nothing else. */
  ghost predicate ListsTopicsOf(r: seq<Topic>, m: map<string, Topic>, subjectId: string)
  {
    && (forall i :: 0 <= i < |r| ==> r[i].id in m && m[r[i].id] == r[i] && r[i].subjectId == subjectId)
    && DistinctTopicIds(r)
    && (forall k :: k in m && m[k].subjectId == subjectId ==> m[k] in r)
  }
}
