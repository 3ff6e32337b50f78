# summary-visor, modelled in Dafny

summary-visor is an offline reader for HTML study summaries ("temas") grouped
by subject ("asignaturas"). This project models its core:

- **The on-device database** of `src/lib/db.js` (`store.dfy`, module `Store`).
  It has two collections keyed by `id`: `subjects` and `topics`. Topics also
  carry an index on `subjectId`.
  - Every exported call first opens the database at version 1. The upgrade
    callback creates each collection only when it is missing.
  - Each call then does one put, get, scan, index scan or delete.
  - `Database` is a class whose two map fields these methods update.
- **The navigation state of `src/App.jsx`** (`navigation.dfy`, module `Navigation`).
  - State: `view` (home, subject or topic), the active subject and topic,
    and the lists on screen.
  - Seeding of the subjects on the first launch.
  - The persistence effect that keeps the "last viewed" pointers in
    localStorage, and the restore that reads them back.
  - The page handlers. `App` is a class over these state variables and a
    localStorage map.
- **The topic page of `src/components/TopicViewer.jsx`** (`viewer.dfy`, module `Viewer`).
  - Toolbar intents map to editing commands, and every command is followed
    by one auto-save.
  - The saved record is the shown topic with a new content and modification
    time.
  - The diagram renderer re-runs when the topic's content changes.
- **The pinch-zoom hook of `src/lib/usePinchZoom.js`** (`zoom.dfy`, module `Zoom`).
  - `PinchZoom` holds the reported `scale`, the mutable gesture record and
    the last window size. Its methods update them as the touch handlers,
    `resetZoom`, `applyTransform` and the resize handler do.
  - Each method is tied to a pure transition function (`AfterTouchStart`,
    `AfterTouchMove`, `AfterTouchEnd`, `Transformed`, `Reset`). The lemmas
    are stated about those functions.

`session.dfy` (module `Session`) puts App and the viewer together for one
session: a topic is edited, left and opened again from the list.

`records.dfy` (module `Records`) holds the two record kinds and the predicates
that say a list returned by a scan holds exactly the records of a collection,
each once.

Inputs the application gets from the browser become parameters:

- the file picked by the user, the fresh id (`crypto.randomUUID`), the
  current time (`Date.now`) and the answer to `confirm`
- the bounding rectangles and timestamps of the touch handlers
- `document.execCommand` and the count of diagram nodes, as functions on an
  abstract body string
- `Math.sqrt`, as a supplied function

## Model

| member | source | states |
|---|---|---|
| Store.Upgrade | src/lib/db.js:8-17 | The upgrade creates `subjects` (key `id`, index `name`) and `topics` (key `id`, index `subjectId`) only when absent. Existing collections are unchanged and nothing else is added. |
| Store.UpgradeIdempotent | src/lib/db.js:6-19 | Running the upgrade on an opened schema changes nothing, so repeated opens leave the stores as they are. |
| Store.Database.constructor | src/lib/db.js:6-7 | A first launch finds a never-opened, empty database. |
| Store.Database.InitDB | src/lib/db.js:6-19 | Opening reaches version 1 and upgrades only from an older version. No record changes. |
| Store.PutAllKeys | src/lib/db.js:26-29 | Putting a list of subjects adds exactly the ids of the list to the keys. |
| Store.PutAllStores | src/lib/db.js:26-29 | When the ids are distinct, every subject of the list is stored as given after putting the list. |
| Store.PutAllKeyed | src/lib/db.js:10 | Putting keeps every subject stored under its own `id`. |
| Store.ListedCount | src/lib/db.js:21-24 | A list holding each subject of a keyed collection once, and nothing else, has the collection's size. |
| Store.ScanSubjects | src/lib/db.js:23 | `getAll('subjects')` returns every stored subject, each once and nothing else, as many as there are keys. |
| Store.ScanTopicsOf | src/lib/db.js:33 | The index scan returns every topic whose `subjectId` matches, each once, and no other topic. |
| Store.ScanEmptyIffNoTopics | src/lib/db.js:31-34 | The index scan is empty if and only if no stored topic belongs to the subject. |
| Store.Database.GetSubjects | src/lib/db.js:21-24 | `getSubjects` lists exactly the stored subjects and changes neither collection. |
| Store.Database.SaveSubject | src/lib/db.js:26-29 | `saveSubject` is an upsert by `id`. Every other subject and all topics are unchanged. |
| Store.Database.GetTopicsBySubject | src/lib/db.js:31-34 | `getTopicsBySubject` lists exactly that subject's topics and changes nothing. |
| Store.Database.GetTopic | src/lib/db.js:36-39 | `getTopic` finds a record if and only if the id is stored, and then returns the stored record. |
| Store.Database.SaveTopic | src/lib/db.js:41-44 | `saveTopic` is an upsert by `id`. The subjects are unchanged. |
| Store.Database.DeleteTopic | src/lib/db.js:46-49 | `deleteTopic` removes only that key, is a no-op for an absent id, and leaves the subjects unchanged. |
| Store.SaveThenGet | src/lib/db.js:36-44 | `saveTopic(t)` then `getTopic(t.id)` returns `t`. |
| Store.DeleteThenGet | src/lib/db.js:36-49 | After `deleteTopic(id)`, `getTopic(id)` finds nothing, and every other topic is still stored unchanged. |
| Navigation.Persisted | src/App.jsx:70-82 | The effect always writes `app_view`. For home it removes both ids. For subject it writes the subject id when a subject is active and removes the topic id. For topic it writes each id whose entity is active. Any other key, or an id it does not write, keeps its value. |
| Navigation.PersistedIdempotent | src/App.jsx:70-82 | Running the persistence effect twice for the same state is running it once. |
| Navigation.FindSubject | src/App.jsx:42 | `find` returns nothing exactly when no subject has the id. Otherwise it returns the first subject with that id. |
| Navigation.FindSubjectUnique | src/App.jsx:42 | Among subjects with distinct ids, `find` by a listed subject's id returns that subject. |
| Navigation.PersistThenRestore | src/App.jsx:37-57 | For a subject or topic page with an active subject among loaded subjects with distinct ids, the restore finds that subject and the saved view in what the effect wrote. |
| Navigation.MountEffectErasesPointers | src/App.jsx:71-74 | The effect's run for the first render (home, nothing active) leaves no subject id to restore and sets the view to home. |
| Navigation.MountForgetsSavedSubject | src/App.jsx:36-74 | A concrete saved session on a subject page that would resolve is no longer restorable after the mount-time effect has run. |
| Navigation.IndexFrom | src/App.jsx:116 | Returns the first position at or after `from` where the pattern occurs, or nothing when it occurs nowhere there. |
| Navigation.TitleWithoutExtension | src/App.jsx:116 | A file name without ".html" is kept whole as the title. |
| Navigation.TitleDropsFirstExtension | src/App.jsx:116 | Only the first ".html" is removed: `base + ".html" + rest` becomes `base + rest` when `base` has none. |
| Navigation.SeedingRunsOnce | src/App.jsx:26-32 | Seeding with a non-empty list leaves the subjects collection non-empty, so a later launch does not seed again. |
| Navigation.App.constructor | src/App.jsx:13-18 | The first render shows home with nothing active, empty lists and the loading flag set. |
| Navigation.App.PersistState | src/App.jsx:70-82 | The effect rewrites localStorage to `Persisted` of the current state, after which the pointers are in sync with the state. |
| Navigation.App.AfterRender | src/App.jsx:82 | The effect runs only when view, active subject or active topic changed. |
| Navigation.App.LoadSubjects | src/App.jsx:22-33 | With no stored subjects, it saves the initial subjects in order and shows that list. Otherwise the stored subjects are shown unchanged, each once. Topics are untouched. |
| Navigation.App.RestoreFrom | src/App.jsx:36-59 | A truthy saved subject id that still resolves restores that subject, its topics, the saved topic when `getTopic` finds it, and a truthy saved view. Otherwise nothing changes. |
| Navigation.App.LoadData | src/App.jsx:22-66 | Seeding as in `LoadSubjects`, then restore from localStorage as in `RestoreFrom`, then loading ends. |
| Navigation.App.Mount | src/App.jsx:21-82 | As written, the app always ends its first load on the home page with nothing active, and the saved pointers are erased. |
| Navigation.App.MountRestoring | src/App.jsx:21-82 | When the pointers are read before the effect overwrites them, a saved subject that resolves is restored with its topics, its found topic and its view. The pointers are then in sync. |
| Navigation.App.HandleSubjectClick | src/App.jsx:84-89 | Opens the subject page on that subject, with exactly its stored topics. The effect keeps the pointers in sync. |
| Navigation.App.HandleTopicClick | src/App.jsx:91-94 | Opens the topic page on that topic, with the subject unchanged. |
| Navigation.App.HandleBack | src/App.jsx:96-104 | topic goes to subject and clears the topic. subject goes to home and clears the subject. home stays, and localStorage with it. |
| Navigation.App.HandleBackReloading | src/App.jsx:96-104 | The corrected handleBack. It moves between views as `HandleBack` does, and leaving a topic page also reloads exactly the active subject's stored topics. The database is unchanged. |
| Navigation.App.HandleAddTopic | src/App.jsx:106-131 | With a file, stores one new topic whose subject is the active one, whose content is the file text and whose title is the name without its first ".html", then reloads exactly the subject's topics. Without a file, nothing changes. |
| Navigation.App.HandleAddDemoTopic | src/App.jsx:217-221 | Saves the demo topic and reloads exactly the active subject's topics. App passes this callback as `onAddDemoTopic`, but `TopicList` (src/components/TopicList.jsx:4) takes no such prop, so nothing in the application calls it. |
| Navigation.App.HandleDeleteTopic | src/App.jsx:133-139 | Only a confirmed deletion removes that topic and reloads the list. Unconfirmed, neither the database nor the list changes. |
| Navigation.App.HandleCreateSubject | src/App.jsx:141-148 | Stores one subject under the fresh id and appends it to the end of the list, keeping the existing entries in order. |
| Viewer.HighlightCommand | src/components/TopicViewer.jsx:48-54 | A truthy colour issues `hiliteColor` with that colour. null or "" issues `removeFormat` with no value. |
| Viewer.HighlightCommandCases | src/components/TopicViewer.jsx:48-54 | `hiliteColor` is issued if and only if the colour is truthy, and never with an empty value. |
| Viewer.FormatCommand | src/components/TopicViewer.jsx:56-58 | `handleFormat(t)` issues command `t` with no value. |
| Viewer.SavedRecord | src/components/TopicViewer.jsx:38-39 | The saved record keeps the topic's `id`, `subjectId` and `title`, and replaces only `content` (the body) and `lastModified` (now). |
| Viewer.TopicViewer.constructor | src/components/TopicViewer.jsx:14-15 | A viewer starts with no mounted body, no diagram pass and no saves. |
| Viewer.TopicViewer.Render | src/components/TopicViewer.jsx:21-31 | The diagram effect runs when the topic content differs from the last run. It calls the renderer only when the body has a diagram node. |
| Viewer.TopicViewer.HandleInput | src/components/TopicViewer.jsx:33-40 | Without a content element, it does nothing. Otherwise it saves exactly one record, `SavedRecord(topic, body, now)`, and touches nothing else. |
| Viewer.TopicViewer.ApplyFormat | src/components/TopicViewer.jsx:42-46 | Applies the command to the body, then makes exactly one save attempt through `HandleInput`. |
| Viewer.TopicViewer.HandleHighlight | src/components/TopicViewer.jsx:48-54 | The highlight command is applied and saved once. Only that topic's record changes in the database, and the subjects collection stays the same. |
| Viewer.TopicViewer.HandleFormat | src/components/TopicViewer.jsx:56-58 | The named command is applied with no value and saved once. Only that topic's record changes in the database, and the subjects collection stays the same. |
| Viewer.FormatThenReload | src/components/TopicViewer.jsx:33-58 | After a format, reading the topic back gives the edited body, under the same id, subject and title. The subjects collection is unchanged. |
| Zoom.NoPanWhenNotEnlarged | src/lib/usePinchZoom.js:99-101 | At scale at most 1, a bound of the form "scaled extent against the same extent" is 0. This is the horizontal bound, where the container's width is scaled against itself. |
| Zoom.UnenlargedPanLimits | src/lib/usePinchZoom.js:91-108 | At a clamped scale of at most 1, `applyTransform` stores a horizontal translation of 0. The vertical translation is 0 when the scaled content fits the container's height. When the content is taller, a requested vertical translation within the bound is kept, so unzoomed tall content can still be dragged up and down. |
| Zoom.WithinTapRadius | src/lib/usePinchZoom.js:149-155 | For a true square root, "distance < 50" holds exactly when the squared distance is below 2500. |
| Zoom.TapRecognition | src/lib/usePinchZoom.js:146-155 | A tap is a double tap exactly when enabled, 0 < elapsed < 300 and the squared distance to the last tap is below 2500. |
| Zoom.TransformedWithinBounds | src/lib/usePinchZoom.js:91-124 | `applyTransform` stores and reports a scale in [minScale, maxScale], which is the requested scale when that is already in range. Both translation bounds are ≥ 0 and each stored translation lies within ±bound. |
| Zoom.DoubleTapToggles | src/lib/usePinchZoom.js:154-175 | A double tap clears `lastTap`, so a third tap is no double tap. From above 1.1 it zooms out to 1. Otherwise it zooms to the clamped 2. |
| Zoom.DefaultDoubleTapZoomsToTwo | src/lib/usePinchZoom.js:155-175 | With the default options, a double tap at scale ≤ 1.1 zooms to exactly 2. |
| Zoom.SingleTapStartsPanOnlyWhenZoomed | src/lib/usePinchZoom.js:176-190 | A non-double tap records time and position, starts panning only above scale 1, and keeps the scale. |
| Zoom.PanKeepsScale | src/lib/usePinchZoom.js:215-225 | A one-finger move keeps the zoom level. |
| Zoom.HandlersKeepScaleInRange | src/lib/usePinchZoom.js:50-250 | `resetZoom` and every touch handler keep the recorded scale at 1 or within [minScale, maxScale]. |
| Zoom.TouchEndAtRest | src/lib/usePinchZoom.js:231-250 | With no touches left, neither zooming nor panning is set and the translate baseline is the current translation. A scale below minScale + 0.15 other than 1 snaps back to 1. Otherwise the scale is kept. |
| Zoom.PinchZoom.constructor | src/lib/usePinchZoom.js:21-48 | `scale` starts at the initial-scale option. The gesture record starts at rest with scale 1. |
| Zoom.PinchZoom.ResetZoom | src/lib/usePinchZoom.js:50-56 | Sets scale and `currentScale` to 1 and the four translate fields to 0, whatever minScale is. The rest of the gesture record is unchanged. |
| Zoom.PinchZoom.ApplyTransform | src/lib/usePinchZoom.js:91-125 | Updates the state to `Transformed` of the old state and returns the clamped scale it reports. |
| Zoom.PinchZoom.TouchStart | src/lib/usePinchZoom.js:128-192 | Two touches start a pinch with the current scale and translation as baseline. One touch is a double tap or a recorded tap, as in `AfterTouchStart`. |
| Zoom.PinchZoom.TouchMove | src/lib/usePinchZoom.js:195-228 | A pinch scales by the ratio of finger distances and moves by the centre's shift. A zoomed pan moves by the finger's shift. Anything else changes nothing. |
| Zoom.PinchZoom.TouchEnd | src/lib/usePinchZoom.js:231-250 | The state becomes `AfterTouchEnd` for the number of remaining touches. |
| Zoom.PinchZoom.Resize | src/lib/usePinchZoom.js:282-293 | Resets the zoom exactly when both window dimensions moved by more than 100, and remembers the new size. |
| Zoom.ZoomedIffPannable | src/lib/usePinchZoom.js:308 | The hook's `isZoomed` (scale above 1; `Zoom.Zoomed`, and `Zoom.PinchZoom.IsZoomed` on the object) holds after `applyTransform` exactly when the horizontal translation bound is positive, that is when the content can be moved sideways. |
| Session.OpenAndType | src/App.jsx:91-94 | Clicking a topic in the list shows the topic page and mounts a new viewer on that record. The viewer shows the record's content, and its first input saves that body under the topic's id. |
| Session.EditBackReopen | src/App.jsx:96-104 | As written: after a format, going back and reopening the topic from the list opens the record from before the edit. The new viewer shows the old content, and its first save writes the old content over the edit. Whenever the edit changed the body, the edit is lost. |
| Session.EditBackReopenReloading | src/App.jsx:96-104 | With `HandleBackReloading`, the list holds the saved record. Reopening shows the edited body, and the next save keeps it. |

## Left out

- Store scans: `getAll` and `getAllFromIndex` return records in key order. The model promises only "every matching record, once" and leaves the order unstated.
- Errors thrown by the database and the `try`/`catch` around the restore are not modelled. In the model every database call succeeds.
- Asynchrony: each awaited chain runs to completion, in order. The one interleaving that matters at mount is written out in `Navigation.App.Mount`.
- Navigation.App.HandleAddTopic, Navigation.App.HandleDeleteTopic, Navigation.App.HandleAddDemoTopic: these require an active subject. The source reads `activeSubject.id` without a check and is only reachable from the subject page, which renders only with an active subject.
- Navigation.App.HandleCreateSubject: it takes the name and colour as given. The non-empty trimmed-name check lives in the modal form, which is not part of this model.
- Rendering is not modelled: the loading screen, framer-motion animations, `window.scrollTo` and the CSS transform and transition strings.
- Viewer: `document.execCommand` is an opaque function on the body string, and the diagram renderer is represented by a count of diagram nodes. mermaid's own rendering and its errors are left out.
- Viewer.TopicViewer.Render: mermaid replaces each diagram node's source with the rendered output in the live body, but the model keeps the body as the topic content. So after a diagram render, the model's next `HandleInput` saves the content, whereas the application saves the rendered output.
- Zoom.PinchZoom.TouchMove: it requires a non-zero starting distance for a pinch. The hook would divide by zero and go on with NaN or Infinity, and floating-point special values are not modelled.
- Zoom: numbers are reals, so floating-point rounding is not modelled. `Math.sqrt` is a supplied function, and only the lemmas that need it to be a square root assume so.
- Zoom.PinchZoom.Resize: the 100 ms `setTimeout` before the reset is collapsed into an immediate reset. The `orientationchange` event leads to the same `ResetZoom`.
- Zoom: `preventDefault`, listener registration and the early return when the elements are not mounted are left out. The model assumes the elements are mounted.
- Navigation.App.AfterRender: React compares the effect's dependencies by reference (`Object.is`), and the model compares them by value. Clicking a record that is equal to the active one but a different object re-runs the effect in the application and not in the model. By `Navigation.PersistedIdempotent` that re-run changes nothing once the pointers are in sync.
- The desktop and mobile shells (electron, capacitor), `src/lib/utils.js` and the presentational components are not part of this model.

## Findings

| source | as written | input that shows it | evidently intended | confidence | as-written member | corrected member |
|---|---|---|---|---|---|---|
| src/App.jsx:21-82 | On mount both effects run in order. `loadData` stops at its first `await`, so the persistence effect (lines 70-82) writes `app_view = "home"` and removes both saved ids before the restore (lines 36-59) reads them. | A previous session left `app_view = "subject"` and `app_activeSubjectId = "s1"`, and subject "s1" is stored. The app starts on home. | Restore the last viewed subject, topic and view on launch. | high, not executed | Navigation.App.Mount (with Navigation.MountForgetsSavedSubject) | Navigation.App.MountRestoring |
| src/App.jsx:96-104 | `handleBack` leaves the topic page without reloading `topics`, and saving an edit never updates the list. `TopicViewer` is mounted afresh on each visit (lines 226-237) and takes its body from the clicked record (src/components/TopicViewer.jsx:86). | A topic whose content is "a" is opened and made bold, which saves "<b>a</b>". The user goes back and opens it again from the list: the page shows "a", and the next keystroke saves "a" plus the keystroke over the bold text. | Reopening a topic shows what was last saved. | high, not executed | Session.EditBackReopen | Session.EditBackReopenReloading (with Navigation.App.HandleBackReloading) |
