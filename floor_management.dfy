/**
 * The floor panel: the create, edit and delete forms, the composite floor
 * key `number_name`, and the floor selector ordered by floor number. The
 * panel does not change the floors itself: each confirmed form yields a
 * command for its owner.
 */
module FloorManagement {
  import opened Wrappers
  import opened Text

  datatype Floor = Floor(name: string, number: int)

  /** A request the panel makes of its owner. */
  datatype FloorCommand =
    | CreateFloor(name: string, number: int)
    | DeleteFloor(key: string)
    | EditFloor(oldKey: string, newName: string, newNumber: int)

  // ---------------------------------------------------------------------------
  // Floor keys
  // ---------------------------------------------------------------------------

  /** `${number}_${name}`: how a floor is identified in the floors map. */
  function FloorKey(f: Floor): (key: string)
    ensures |key| == |IntToString(f.number)| + 1 + |f.name|
    ensures key[..|IntToString(f.number)|] == IntToString(f.number)
    ensures key[|IntToString(f.number)|] == '_'
    ensures key[|IntToString(f.number)| + 1..] == f.name
  {
    IntToString(f.number) + "_" + f.name
  }

  /** Reads a floor key back: the number before the first `_`, the name after it. */
  function ParseFloorKey(key: string): (r: Option<Floor>)
    ensures r.Some? ==> '_' in key
  {
    match SplitFirst(key, '_')
    case None => None
    case Some(parts) =>
      match ParseInt(parts.0)
      case None => None
      case Some(n) => Some(Floor(parts.1, n))
  }

  lemma NoUnderscoreInInt(n: int)
    ensures '_' !in IntToString(n)
  {
    if '_' in IntToString(n) {
      IntToStringChars(n, '_');
    }
  }

  /** Every floor, whatever its name (underscores included), is recovered from its key. */
  lemma FloorKeyRoundTrip(f: Floor)
    ensures ParseFloorKey(FloorKey(f)) == Some(f)
  {
    NoUnderscoreInInt(f.number);
    SplitFirstAt(IntToString(f.number), '_', f.name);
    assert FloorKey(f) == IntToString(f.number) + ['_'] + f.name;
    IntRoundTrip(f.number);
  }

  /** Distinct floors have distinct keys. */
  lemma FloorKeyInjective(f: Floor, g: Floor)
    requires FloorKey(f) == FloorKey(g)
    ensures f == g
  {
    FloorKeyRoundTrip(f);
    FloorKeyRoundTrip(g);
  }

  // ---------------------------------------------------------------------------
  // The floor selector
  // ---------------------------------------------------------------------------

  /** An entry of the floors map: its key and its floor, in the map's insertion order. */
  datatype FloorEntry = FloorEntry(key: string, floor: Floor)

  predicate SortedByNumber(entries: seq<FloorEntry>) {
    forall i, j :: 0 <= i < j < |entries| ==> entries[i].floor.number <= entries[j].floor.number
  }

  /** The entries with floor number `n`, in their order. */
  function WithNumber(entries: seq<FloorEntry>, n: int): seq<FloorEntry> {
    if entries == [] then []
    else (if entries[0].floor.number == n then [entries[0]] else []) + WithNumber(entries[1..], n)
  }

  /** Inserts `e` in front of the first entry whose number is not smaller. */
  function Insert(e: FloorEntry, sorted: seq<FloorEntry>): (r: seq<FloorEntry>)
    requires SortedByNumber(sorted)
    ensures SortedByNumber(r)
    ensures |r| == |sorted| + 1
    ensures r[0] == e || (sorted != [] && r[0] == sorted[0])
  {
    if sorted == [] || e.floor.number <= sorted[0].floor.number then [e] + sorted
    else [sorted[0]] + Insert(e, sorted[1..])
  }

  lemma {:induction false} InsertPermutes(e: FloorEntry, sorted: seq<FloorEntry>)
    requires SortedByNumber(sorted)
    ensures multiset(Insert(e, sorted)) == multiset(sorted) + multiset{e}
  {
    if sorted != [] && e.floor.number > sorted[0].floor.number {
      InsertPermutes(e, sorted[1..]);
      assert sorted == [sorted[0]] + sorted[1..];
    }
  }

  /**
   * The selector's option order: the entries sorted by floor number, floors
   * with equal numbers kept in insertion order (JavaScript's sort is stable).
   */
  function SortByNumber(entries: seq<FloorEntry>): (r: seq<FloorEntry>)
    ensures SortedByNumber(r)
    ensures |r| == |entries|
  {
    if entries == [] then [] else Insert(entries[0], SortByNumber(entries[1..]))
  }

  /** The options are the floors map's entries, each as often as it occurs. */
  lemma {:induction false} SortByNumberPermutes(entries: seq<FloorEntry>)
    ensures multiset(SortByNumber(entries)) == multiset(entries)
  {
    if entries != [] {
      SortByNumberPermutes(entries[1..]);
      InsertPermutes(entries[0], SortByNumber(entries[1..]));
      MultisetOfCons(entries);
    }
  }

  lemma MultisetOfCons(entries: seq<FloorEntry>)
    requires entries != []
    ensures multiset(entries) == multiset(entries[1..]) + multiset{entries[0]}
  {
    assert entries == [entries[0]] + entries[1..];
  }

  lemma {:induction false} WithNumberInsert(e: FloorEntry, sorted: seq<FloorEntry>, n: int)
    requires SortedByNumber(sorted)
    ensures WithNumber(Insert(e, sorted), n) ==
      (if e.floor.number == n then [e] else []) + WithNumber(sorted, n)
  {
    if sorted == [] || e.floor.number <= sorted[0].floor.number {
      assert ([e] + sorted)[1..] == sorted;
    } else {
      var rest := Insert(e, sorted[1..]);
      WithNumberInsert(e, sorted[1..], n);
      assert ([sorted[0]] + rest)[1..] == rest;
      if sorted[0].floor.number == n {
        assert e.floor.number > n;
      }
    }
  }

  /** Sorting keeps the relative order of floors that share a number. */
  lemma {:induction false} SortByNumberStable(entries: seq<FloorEntry>, n: int)
    ensures WithNumber(SortByNumber(entries), n) == WithNumber(entries, n)
  {
    if entries != [] {
      SortByNumberStable(entries[1..], n);
      WithNumberInsert(entries[0], SortByNumber(entries[1..]), n);
    }
  }

  /** What the floor selector shows: its options in order, and the key of the option it selects. */
  datatype Selector = Selector(options: seq<FloorEntry>, value: string)

  /**
   * The floor selector, shown only when there is a current floor and more
   * than one floor: every entry of the floors map, ordered by floor number,
   * with the current floor's key selected.
   */
  function FloorSelector(entries: seq<FloorEntry>, current: Option<Floor>): (r: Option<Selector>)
    ensures r.Some? <==> |entries| > 1 && current.Some?
    ensures r.Some? ==> SortedByNumber(r.value.options) && multiset(r.value.options) == multiset(entries)
    ensures r.Some? ==> r.value.value == FloorKey(current.value)
  {
    if |entries| > 1 && current.Some? then
      SortByNumberPermutes(entries);
      Some(Selector(SortByNumber(entries), FloorKey(current.value)))
    else
      None
  }

  /** When every entry is keyed by its floor's key, the selector's value picks out the current floor's entries and no other. */
  lemma SelectedOptionIsCurrent(entries: seq<FloorEntry>, current: Floor, i: int)
    requires forall j :: 0 <= j < |entries| ==> entries[j].key == FloorKey(entries[j].floor)
    requires 0 <= i < |SortByNumber(entries)|
    ensures SortByNumber(entries)[i].key == FloorKey(current) <==> SortByNumber(entries)[i].floor == current
  {
    var options := SortByNumber(entries);
    SortByNumberPermutes(entries);
    assert options[i] in multiset(options);
    var j :| 0 <= j < |entries| && entries[j] == options[i];
    if options[i].key == FloorKey(current) {
      FloorKeyInjective(options[i].floor, current);
    }
  }

  // ---------------------------------------------------------------------------
  // The forms
  // ---------------------------------------------------------------------------

  /** The panel's form fields and dialogs. */
  class FloorForm {
    var newFloorName: string
    var newFloorNumber: int
    var showDeleteConfirm: bool
    var showEditForm: bool
    var editFloorName: string
    var editFloorNumber: int

    constructor()
      ensures newFloorName == "" && newFloorNumber == 0
      ensures !showDeleteConfirm && !showEditForm
      ensures editFloorName == "" && editFloorNumber == 0
    {
      newFloorName := "";
      newFloorNumber := 0;
      showDeleteConfirm := false;
      showEditForm := false;
      editFloorName := "";
      editFloorNumber := 0;
    }

    /** Whether the Create button is enabled: the name is not blank. */
    predicate CanCreate()
      reads this
      ensures CanCreate() <==> !AllWhitespace(newFloorName)
    {
      Trim(newFloorName) != ""
    }

    method SetNewFloorName(text: string)
      modifies this`newFloorName
      ensures newFloorName == text
    {
      newFloorName := text;
    }

    method SetNewFloorNumber(n: int)
      modifies this`newFloorNumber
      ensures newFloorNumber == n
    {
      newFloorNumber := n;
    }

    /**
     * Create: with a blank name nothing happens. Otherwise the owner is asked
     * to create a floor with the trimmed name and the entered number, the name
     * field empties and the number field moves on to the next number.
     */
    method HandleCreateFloor() returns (cmd: Option<FloorCommand>)
      modifies this`newFloorName, this`newFloorNumber
      ensures Trim(old(newFloorName)) == "" ==>
        cmd == None && newFloorName == old(newFloorName) && newFloorNumber == old(newFloorNumber)
      ensures Trim(old(newFloorName)) != "" ==>
        cmd == Some(CreateFloor(Trim(old(newFloorName)), old(newFloorNumber))) &&
        newFloorName == "" && newFloorNumber == old(newFloorNumber) + 1
      ensures cmd.Some? ==> cmd.value.name != "" && IsTrimmed(cmd.value.name)
      ensures cmd.Some? <==> old(CanCreate())
    {
      var name := Trim(newFloorName);
      if name != "" {
        cmd := Some(CreateFloor(name, newFloorNumber));
        newFloorName := "";
        newFloorNumber := newFloorNumber + 1;
      } else {
        cmd := None;
      }
    }

    method HandleDeleteRequest()
      modifies this`showDeleteConfirm
      ensures showDeleteConfirm
    {
      showDeleteConfirm := true;
    }

    /** Confirms the deletion of the current floor, if there is one; the dialog always closes. */
    method HandleDeleteConfirm(current: Option<Floor>) returns (cmd: Option<FloorCommand>)
      modifies this`showDeleteConfirm
      ensures cmd == (if current.Some? then Some(DeleteFloor(FloorKey(current.value))) else None)
      ensures !showDeleteConfirm
    {
      if current.Some? {
        cmd := Some(DeleteFloor(FloorKey(current.value)));
      } else {
        cmd := None;
      }
      showDeleteConfirm := false;
    }

    method HandleDeleteCancel()
      modifies this`showDeleteConfirm
      ensures !showDeleteConfirm
    {
      showDeleteConfirm := false;
    }

    /** Opens the edit form on the current floor's name and number; without a current floor nothing happens. */
    method HandleEditRequest(current: Option<Floor>)
      modifies this`editFloorName, this`editFloorNumber, this`showEditForm
      ensures current.None? ==>
        editFloorName == old(editFloorName) && editFloorNumber == old(editFloorNumber) && showEditForm == old(showEditForm)
      ensures current.Some? ==>
        editFloorName == current.value.name && editFloorNumber == current.value.number && showEditForm
    {
      if current.Some? {
        editFloorName := current.value.name;
        editFloorNumber := current.value.number;
        showEditForm := true;
      }
    }

    method SetEditFloorName(text: string)
      modifies this`editFloorName
      ensures editFloorName == text
    {
      editFloorName := text;
    }

    method SetEditFloorNumber(n: int)
      modifies this`editFloorNumber
      ensures editFloorNumber == n
    {
      editFloorNumber := n;
    }

    /**
     * Confirms the edit: only with a current floor and a name that is not
     * blank is the owner asked to re-key the floor, and only then does the
     * form close.
     */
    method HandleEditConfirm(current: Option<Floor>) returns (cmd: Option<FloorCommand>)
      modifies this`showEditForm
      ensures cmd == (if current.Some? && Trim(old(editFloorName)) != ""
                      then Some(EditFloor(FloorKey(current.value), Trim(old(editFloorName)), old(editFloorNumber)))
                      else None)
      ensures showEditForm == (if cmd.Some? then false else old(showEditForm))
    {
      cmd := if current.Some? && Trim(editFloorName) != ""
             then Some(EditFloor(FloorKey(current.value), Trim(editFloorName), editFloorNumber))
             else None;
      if cmd.Some? {
        showEditForm := false;
      }
    }

    method HandleEditCancel()
      modifies this`showEditForm
      ensures !showEditForm
    {
      showEditForm := false;
    }
  }

  /** Editing a floor without changing anything asks the owner to re-key it under the same key. */
  method EditUnchanged(form: FloorForm, current: Floor) returns (cmd: Option<FloorCommand>)
    requires current.name != "" && IsTrimmed(current.name)
    modifies form
    ensures cmd.Some? && cmd.value.EditFloor?
    ensures FloorKey(Floor(cmd.value.newName, cmd.value.newNumber)) == cmd.value.oldKey
  {
    form.HandleEditRequest(Some(current));
    TrimOfTrimmed(current.name);
    cmd := form.HandleEditConfirm(Some(current));
  }
}
