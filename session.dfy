/**
 * A topic edited, left and opened again within one session: the App's
 * handlers of src/App.jsx together with the TopicViewer of
 * src/components/TopicViewer.jsx, which App mounts afresh each time the
 * topic page is shown, with the `activeTopic` record as its prop.
 */
module Session {
  import opened Records
  import opened Store
  import opened Navigation
  import opened Viewer

  /**
   * Opening `t` from the list: App shows the topic page with `t` as the
   * active topic and mounts a new viewer on it; the viewer's first input
   * saves its body.
   */
  method OpenAndType(app: App, t: Topic, exec: (Command, string) -> string, diagrams: string -> nat, later: int)
    returns (reopened: TopicViewer)
    requires app.Valid()
    modifies app`activeTopic, app`view, app`localStorage, app.db
    ensures app.Valid() && app.view == TOPIC && app.activeTopic == Some(t)
    ensures fresh(reopened) && reopened.topic == t && reopened.body == Some(t.content)
    ensures reopened.saves == [SavedRecord(t, t.content, later)]
    ensures app.db.topics == old(app.db.topics)[t.id := SavedRecord(t, t.content, later)]
    ensures app.db.subjects == old(app.db.subjects)
  {
    app.HandleTopicClick(t);
    reopened := new TopicViewer(t, app.db, exec, diagrams);
    var _ := reopened.Render(t);
    reopened.HandleInput(later);
  }

  /**
   * As written: format the open topic, go back, and open the same topic
   * again from the list on screen. handleBack does not reload the list, so
   * the record clicked is the one from before the edit; the new viewer
   * shows its old content, and the next auto-save writes that old content
   * over the edit.
   */
  method EditBackReopen(app: App, viewer: TopicViewer, kind: string, now: int, later: int)
    returns (reopened: TopicViewer)
    requires app.Valid() && viewer.Valid() && viewer.db == app.db
    requires app.view == TOPIC && app.activeTopic == Some(viewer.topic) && viewer.topic in app.topics
    requires viewer.body.Some?
    modifies app, app.db, viewer
    ensures app.Valid() && app.view == TOPIC && app.activeTopic == Some(old(viewer.topic))
    ensures viewer.body == Some(viewer.exec(Command(kind, None), old(viewer.body).value))
    ensures old(viewer.topic) in app.topics
    ensures reopened.topic == old(viewer.topic) && reopened.body == Some(old(viewer.topic).content)
    ensures app.db.topics == old(app.db.topics)[old(viewer.topic).id := SavedRecord(old(viewer.topic), old(viewer.topic).content, later)]
    ensures viewer.body.value != old(viewer.topic).content ==> app.db.topics[old(viewer.topic).id].content != viewer.body.value
  {
    var t := viewer.topic;
    viewer.HandleFormat(kind, now);
    app.HandleBack();
    reopened := OpenAndType(app, t, viewer.exec, viewer.diagrams, later);
  }

  /**
   * With the list reloaded on the way back, the record clicked is the one
   * the viewer saved: the new viewer shows the edited body, and the next
   * auto-save keeps it.
   */
  method EditBackReopenReloading(app: App, viewer: TopicViewer, kind: string, now: int, later: int)
    returns (reopened: TopicViewer)
    requires app.Valid() && viewer.Valid() && viewer.db == app.db
    requires app.view == TOPIC && app.activeTopic == Some(viewer.topic)
    requires app.activeSubject.Some? && viewer.topic.subjectId == app.activeSubject.value.id
    requires viewer.body.Some?
    modifies app, app.db, viewer
    ensures app.Valid() && app.view == TOPIC
    ensures viewer.body == Some(viewer.exec(Command(kind, None), old(viewer.body).value))
    ensures reopened.topic == SavedRecord(old(viewer.topic), viewer.body.value, now) && reopened.topic in app.topics
    ensures reopened.body == viewer.body
    ensures old(viewer.topic).id in app.db.topics
    ensures app.db.topics[old(viewer.topic).id] == SavedRecord(old(viewer.topic), viewer.body.value, later)
  {
    var id := viewer.topic.id;
    viewer.HandleFormat(kind, now);
    var saved := SavedRecord(viewer.topic, viewer.body.value, now);
    assert app.db.topics[id] == saved;
    app.HandleBackReloading();
    assert saved in app.topics;
    reopened := OpenAndType(app, saved, viewer.exec, viewer.diagrams, later);
  }
}
