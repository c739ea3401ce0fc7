/** reload_configuration: what a valid document makes of the table. Each "module"
    element updates the slot of its name or fills the next blank slot; modules the
    document does not mention are disabled and flagged for removal. */
module Reload {
  import opened Model
  import opened Service
  import opened Document
  import opened Interfaces

  // ----- One module -----

  /** The loop over all slots before the document is read. */
  function ResetSlot(m: Module): Module {
    m.(checked := false, modified := false, profile := None, maxRestarts := -1, myChild := true,
       rootPerm := false, init := false, remove := false)
  }

  /** A given attribute of a known module differs from the stored one. */
  predicate Differs(kids: seq<Node>, tag: Tag, stored: Option<Content>) {
    Given(kids, tag) && Text(kids, tag) != stored
  }

  /** What happens to the interfaces; without "trapinterfaces" a known module loses its own. */
  function ScanOf(m: Module, kids: seq<Node>, isNew: bool): Scan {
    var traps := Elements(kids, TrapTag);
    if traps != [] then Scanned(m.ifces, m.ifcCap, isNew, traps[|traps| - 1].kids)
    else Scan([], m.ifcCap, !isNew && m.ifces != [], isNew || m.ifces != [])
  }

  /** A "module" element applied to a slot. */
  function Reconciled(m: Module, d: Entry, isNew: bool, initial: bool): Module {
    var kids := if d.node.Element? then d.node.kids else [];
    var on := Text(kids, EnabledTag).Some? && Text(kids, EnabledTag).value <= "true";
    var limit := if Text(kids, RestartsTag).Some? then ScanInt(Text(kids, RestartsTag).value) else None;
    var scan := ScanOf(m, kids, isNew);
    var pid := if d.node.Element? && initial then d.node.pid else None;
    m.(checked := true,
       pid := if pid.Some? then Atoi(pid.value) else m.pid,
       enabled := on,
       restartCnt := if on && (isNew || !m.enabled) then -1 else m.restartCnt,
       maxRestarts := if limit.Some? && limit.value >= 0 then limit.value else m.maxRestarts,
       name := if isNew then NameOf(d.node) else m.name,
       path := if Given(kids, PathTag) then Text(kids, PathTag) else m.path,
       params := if Given(kids, ParamsTag) then Text(kids, ParamsTag) else m.params,
       ifces := scan.ifces, ifcCap := scan.cap,
       modified := m.modified || scan.modified
         || (!isNew && (Differs(kids, PathTag, m.path) || Differs(kids, ParamsTag, m.params))),
       profile := Some(d.profile))
  }

  // ----- The table -----

  const FreshSlot := BlankModule.(ifcCap := IFCES_START_SIZE)

  /** check_running_modules_allocated_memory */
  function MakeRoom(slots: seq<Module>, loaded: nat): (r: seq<Module>)
    ensures slots <= r && forall i :: |slots| <= i < |r| ==> r[i] == FreshSlot
    ensures loaded < |slots| ==> r == slots
    ensures loaded <= |slots| != 1 ==> loaded < |r|
  {
    var n := if |slots| == 0 then MODULES_START_SIZE else if loaded == |slots| then |slots| / 2 else 0;
    slots + seq(n, i => FreshSlot)
  }

  /** find_loaded_module, with `loaded` for "not found". */
  function FindFrom(slots: seq<Module>, loaded: nat, name: string, x: nat): (r: nat)
    requires x <= loaded <= |slots|
    ensures x <= r <= loaded && (r < loaded ==> slots[r].name == name)
    ensures forall i :: x <= i < r ==> slots[i].name != name
    decreases loaded - x
  {
    if x == loaded || slots[x].name == name then x else FindFrom(slots, loaded, name, x + 1)
  }

  datatype Rows = Rows(slots: seq<Module>, loaded: nat)

  predicate Tidy(t: Rows) {
    t.loaded <= |t.slots| != 1
  }

  function Enter(t: Rows, d: Entry, initial: bool): (r: Rows)
    requires Tidy(t)
    ensures Tidy(r) && t.loaded <= r.loaded <= t.loaded + 1 && |t.slots| <= |r.slots|
  {
    var slots := MakeRoom(t.slots, t.loaded);
    var x := FindFrom(slots, t.loaded, NameOf(d.node), 0);
    Rows(slots[x := Reconciled(slots[x], d, x == t.loaded, initial)], if x == t.loaded then t.loaded + 1 else t.loaded)
  }

  function EnterAll(t: Rows, ds: seq<Entry>, initial: bool): (r: Rows)
    requires Tidy(t)
    ensures Tidy(r) && t.loaded <= r.loaded && |t.slots| <= |r.slots|
  {
    if ds == [] then t else Enter(EnterAll(t, ds[..|ds| - 1], initial), ds[|ds| - 1], initial)
  }

  /** After the document was read: flag a missing module, or arrange for a modified one to be restarted. */
  function Settle(m: Module, known: bool, initial: bool): Module {
    var missing := known && !m.checked;
    var restart := m.modified && m.running;
    var n := m.(enabled := m.enabled && !missing && !restart,
                remove := m.remove || missing,
                served := false,
                running := m.running && !m.modified,
                init := m.init || (restart && m.enabled && !missing));
    InitVars(n, initial && n.pid > 0)
  }

  function ResetAll(slots: seq<Module>): (r: seq<Module>)
    ensures |r| == |slots| && forall i :: 0 <= i < |r| ==> r[i] == ResetSlot(slots[i])
  {
    seq(|slots|, i requires 0 <= i < |slots| => ResetSlot(slots[i]))
  }

  function SettleAll(slots: seq<Module>, loaded: nat, known: nat, initial: bool): (r: seq<Module>)
    requires loaded <= |slots|
    ensures |r| == |slots|
    ensures forall i :: 0 <= i < |r| ==> r[i] == if i < loaded then Settle(slots[i], i < known, initial) else slots[i]
  {
    seq(|slots|, i requires 0 <= i < |slots| => if i < loaded then Settle(slots[i], i < known, initial) else slots[i])
  }

  function SupervisorLimit(kids: seq<Node>, current: int): int {
    var sups := Elements(kids, SupervisorTag);
    if sups == [] then current
    else var text := Text(sups[|sups| - 1].kids, RestartsTag);
      if text.Some? && ScanInt(text.value).Some? && 0 <= ScanInt(text.value).value <= MAX_RESTARTS
      then ScanInt(text.value).value else current
  }

  /** A valid document applied to the state. */
  function Apply(st: State, kids: seq<Node>, initial: bool): (r: State)
    requires st.loaded <= |st.slots| != 1
    ensures Sized(r) && |r.slots| != 1
  {
    var t := EnterAll(Rows(ResetAll(st.slots), st.loaded), Entries(kids), initial);
    st.(slots := SettleAll(t.slots, t.loaded, st.loaded, initial), loaded := t.loaded, profiles := ProfilesIn(kids),
        defaultLimit := SupervisorLimit(kids, st.defaultLimit))
  }

  /** reload_configuration on any document; `initial` for the load at start-up. */
  ghost function Reloaded(st: State, doc: Option<Node>, initial: bool): State
    requires st.loaded <= |st.slots| != 1
  {
    if ValidDoc(doc) then Apply(st, doc.value.kids, initial) else st
  }
}
