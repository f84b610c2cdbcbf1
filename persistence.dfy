/**
 * Sidebar's save / load / reset of named pens (src/App.js, Sidebar).  The
 * Session value is everything those handlers read and write: Sidebar's own
 * state (penName, isInvalid, item), App's three buffers and the contents of
 * localStorage.  The functions below give the new Session; the classes
 * at the end run the handlers on objects and are proved against them.
 */
module Persistence {
  import opened Wrappers
  import Buffers

  /** A pen: the record `{html, css, js}` that is saved and loaded. */
  datatype Pen = Pen(html: string, css: string, js: string)

  /** What localStorage holds under a name: a pen this app wrote, or text that does not parse as one. */
  datatype Stored = Record(pen: Pen) | Garbage

  /** The two submit buttons; any action other than 'save' loads. */
  datatype Action = Save | Load

  /** Which of App's buffers an editor's onChange replaces. */
  datatype Lang = Html | Css | Js

  datatype Session = Session(
    penName: string,
    isInvalid: bool,
    item: Option<Pen>,           // None stands for the initial `{}`
    code: Pen,                   // App's htmlCode, cssCode, jsCode
    store: map<string, Stored>)  // localStorage

  /** localStorage.getItem: null for a name never written. */
  function Lookup(store: map<string, Stored>, key: string): (item: Option<Stored>)
    ensures item.Some? <==> key in store
    ensures item.Some? ==> store[key] == item.value
  {
    if key in store then Some(store[key]) else None
  }

  /**
   * JSON.parse of the stored text followed by reading data.html/css/js: a
   * missing name parses to null, whose fields throw, and undecodable text
   * throws in the parser; both reach the catch.
   */
  function Parse(item: Option<Stored>): (data: Option<Pen>)
    ensures data.Some? <==> item.Some? && item.value.Record?
    ensures data.Some? ==> item == Some(Record(data.value))
  {
    match item
    case Some(Record(pen)) => Some(pen)
    case _ => None
  }

  /** handleChange: the pen-name input's text. */
  function WithPenName(s: Session, value: string): (r: Session)
    ensures r.penName == value
    ensures r.(penName := s.penName) == s
  {
    s.(penName := value)
  }

  /** An editor's onChange: setCode(value) on one buffer. */
  function Edited(s: Session, lang: Lang, text: string): (r: Session)
    // only the edited buffer takes the text; the other two and everything else stay
    ensures r.(code := s.code) == s
    ensures (lang == Html ==> r.code.html == text) && (lang != Html ==> r.code.html == s.code.html)
    ensures (lang == Css ==> r.code.css == text) && (lang != Css ==> r.code.css == s.code.css)
    ensures (lang == Js ==> r.code.js == text) && (lang != Js ==> r.code.js == s.code.js)
  {
    match lang
    case Html => s.(code := s.code.(html := text))
    case Css => s.(code := s.code.(css := text))
    case Js => s.(code := s.code.(js := text))
  }

  /** resetCode: all three buffers emptied, nothing else touched. */
  function Reset(s: Session): (r: Session)
    ensures r.code == Pen("", "", "")
    ensures r.(code := s.code) == s
  {
    s.(code := Pen("", "", ""))
  }

  /** handleSubmit(e, action). */
  function Submitted(s: Session, action: Action): (r: Session)
    // the invalid flag is raised by an empty name and never lowered
    ensures r.isInvalid == (s.isInvalid || s.penName == "")
    // an empty name changes nothing else
    ensures s.penName == "" ==> r == s.(isInvalid := true)
    // an accepted submit always clears the name, whatever the store holds
    ensures s.penName != "" ==> r.penName == ""
    // loading only reads the store
    ensures action == Load ==> r.store == s.store
    // saving writes the current buffers under the name, overwriting what was there
    ensures action == Save && s.penName != "" ==> Lookup(r.store, s.penName) == Some(Record(s.code)) && r.code == s.code
    // and remembers them as the current item
    ensures action == Save && s.penName != "" ==> r.item == Some(s.code)
    // no other name is touched
    ensures forall k :: k != s.penName ==> Lookup(r.store, k) == Lookup(s.store, k)
    // the buffers change only by loading a decodable record, and then all three at once
    ensures r.code != s.code ==> action == Load && Parse(Lookup(s.store, s.penName)) == Some(r.code)
    ensures action == Load && Parse(Lookup(s.store, s.penName)).None? ==> r.code == s.code && r.item == s.item
    // loading a decodable record sets all three buffers and the item to it
    ensures s.penName != "" && action == Load && Parse(Lookup(s.store, s.penName)).Some?
            ==> r.code == Parse(Lookup(s.store, s.penName)).value && r.item == Some(r.code)
  {
    if s.penName != "" then
      match action
      case Save =>
        s.(store := s.store[s.penName := Record(s.code)], item := Some(s.code), penName := "")
      case Load =>
        match Parse(Lookup(s.store, s.penName))
        case Some(data) => s.(code := data, item := Some(data), penName := "")
        case None => s.(penName := "")
    else
      s.(isInvalid := true)
  }

  /** What the user can do to the Sidebar and the editors. */
  datatype Input = TypeName(value: string) | Submit(action: Action) | ResetCode | Edit(lang: Lang, text: string)

  function Apply(s: Session, input: Input): Session
  {
    match input
    case TypeName(value) => WithPenName(s, value)
    case Submit(action) => Submitted(s, action)
    case ResetCode => Reset(s)
    case Edit(lang, text) => Edited(s, lang, text)
  }

  function Replay(s: Session, inputs: seq<Input>): Session
    decreases |inputs|
  {
    if inputs == [] then s else Replay(Apply(s, inputs[0]), inputs[1..])
  }

  /**
   * Saving under a name, editing one buffer, then loading that name gives
   * back the buffers that were saved, not the edit.
   */
  lemma SaveThenLoad(s: Session, name: string, lang: Lang, text: string)
    requires name != ""
    ensures var saved := Submitted(WithPenName(s, name), Save);
            var loaded := Submitted(WithPenName(Edited(saved, lang, text), name), Load);
            loaded.code == s.code && loaded.item == Some(s.code) && loaded.penName == "" && loaded.store == saved.store
            && Lookup(saved.store, name) == Some(Record(s.code))
  {
  }

  /** Loading a name with no decodable record leaves the buffers as they were and clears the name. */
  lemma LoadMissingKeepsCode(s: Session)
    requires s.penName != "" && Parse(Lookup(s.store, s.penName)).None?
    ensures Submitted(s, Load) == s.(penName := "")
  {
  }

  /** resetCode twice is resetCode once. */
  lemma ResetIdempotent(s: Session)
    ensures Reset(Reset(s)) == Reset(s)
    ensures Reset(s).code == Pen("", "", "")
  {
  }

  /** Once the invalid flag is raised, nothing the user does lowers it. */
  lemma {:induction false} InvalidStaysRaised(s: Session, inputs: seq<Input>)
    requires s.isInvalid
    ensures Replay(s, inputs).isInvalid
    decreases |inputs|
  {
    if inputs != [] {
      InvalidStaysRaised(Apply(s, inputs[0]), inputs[1..]);
    }
  }

  /** Nothing removes a name from the store: the names ever saved only grow. */
  lemma {:induction false} SavedNamesPersist(s: Session, inputs: seq<Input>)
    ensures s.store.Keys <= Replay(s, inputs).store.Keys
    decreases |inputs|
  {
    if inputs != [] {
      var t := Apply(s, inputs[0]);
      assert s.store.Keys <= t.store.Keys by {
        forall k | k in s.store.Keys ensures k in t.store.Keys {
          assert Lookup(s.store, k).Some?;
        }
      }
      SavedNamesPersist(t, inputs[1..]);
    }
  }

  /** Without a save, the store is exactly as it was: loads, edits and resets never write it. */
  lemma {:induction false} StoreUnchangedWithoutSave(s: Session, inputs: seq<Input>)
    requires forall i <- inputs :: i != Submit(Save)
    ensures Replay(s, inputs).store == s.store
    decreases |inputs|
  {
    if inputs != [] {
      assert inputs[0] in inputs;
      assert forall i <- inputs[1..] :: i in inputs;
      StoreUnchangedWithoutSave(Apply(s, inputs[0]), inputs[1..]);
    }
  }

  /**
   * Save a pen under a name, do anything but save (edit, reset, load other
   * pens), then load the name: the saved buffers come back exactly.
   */
  lemma SaveEditLoad(s: Session, name: string, inputs: seq<Input>)
    requires name != ""
    requires forall i <- inputs :: i != Submit(Save)
    ensures var saved := Submitted(WithPenName(s, name), Save);
            Submitted(WithPenName(Replay(saved, inputs), name), Load).code == s.code
  {
    var saved := Submitted(WithPenName(s, name), Save);
    StoreUnchangedWithoutSave(saved, inputs);
  }

  /** localStorage, as a map from names to what was written. */
  class LocalStorage {
    var items: map<string, Stored>

    constructor ()
      ensures items == map[]
    {
      items := map[];
    }

    method SetItem(key: string, value: Stored)
      modifies this
      ensures items == old(items)[key := value]
    {
      items := items[key := value];
    }

    method GetItem(key: string) returns (item: Option<Stored>)
      ensures item == Lookup(items, key)
    {
      item := if key in items then Some(items[key]) else None;
    }
  }

  class Sidebar {
    var penName: string
    var item: Option<Pen>
    var isInvalid: bool
    const app: Buffers.BufferStore
    const storage: LocalStorage

    function State(): Session
      reads this, app, storage
    {
      Session(penName, isInvalid, item, Pen(app.htmlCode, app.cssCode, app.jsCode), storage.items)
    }

    constructor (app: Buffers.BufferStore, storage: LocalStorage)
      ensures this.app == app && this.storage == storage
      ensures penName == "" && item == None && !isInvalid
    {
      this.app, this.storage := app, storage;
      penName, item, isInvalid := "", None, false;
    }

    method HandleChange(value: string)
      modifies this
      ensures State() == WithPenName(old(State()), value)
    {
      penName := value;
    }

    method ResetCode()
      modifies app
      ensures app.Valid()
      ensures State() == Reset(old(State()))
    {
      app.SetAll("", "", "");
    }

    method HandleSubmit(action: Action)
      requires app.Valid()
      modifies this, app, storage
      ensures app.Valid()
      ensures State() == Submitted(old(State()), action)
    {
      if penName != "" {
        if action == Save {
          var pen := Pen(app.htmlCode, app.cssCode, app.jsCode);
          storage.SetItem(penName, Record(pen));
          item := Some(pen);
          penName := "";
        } else {
          var stored := storage.GetItem(penName);
          match Parse(stored) {
            case Some(data) =>
              app.SetAll(data.html, data.css, data.js);
              item := Some(data);
              penName := "";
            case None =>
              penName := "";
          }
        }
      } else {
        isInvalid := true;
      }
    }
  }

  /**
   * Save as "demo", reset the buffers, load "demo": all three buffers are
   * back at their values before the reset.
   */
  method SaveResetLoad(html: string, css: string, js: string) returns (restored: Pen)
    ensures restored == Pen(html, css, js)
  {
    var app := new Buffers.BufferStore();
    var storage := new LocalStorage();
    var sidebar := new Sidebar(app, storage);
    app.SetAll(html, css, js);
    sidebar.HandleChange("demo");
    sidebar.HandleSubmit(Save);
    ghost var saved := sidebar.State();
    assert Lookup(saved.store, "demo") == Some(Record(Pen(html, css, js)));
    sidebar.ResetCode();
    assert sidebar.State().store == saved.store;
    sidebar.HandleChange("demo");
    sidebar.HandleSubmit(Load);
    restored := Pen(app.htmlCode, app.cssCode, app.jsCode);
  }
}
