/** Cookie normalisation: `load_cookies` turns a parsed `cookies.json` into
    a name-to-value dictionary (scraper.py:36-55). */
module Cookies {
  import opened Wrappers
  import opened Json

  /** A Python dict from cookie name to cookie value. Names are the objects
      found in the file, so a list-form entry may name a cookie by a number. */
  type Jar = map<Value, Value>

  /** Why `load_cookies` raised, after the file was read and parsed. */
  datatype LoadError =
    | UnsupportedFormat        // the document is neither a list nor a dict
    | EntryNotObject(entry: Value)   // `c.get` on a list entry that is not a dict
    | UnhashableName(name: Value)    // a truthy list or dict used as a dict key

  /** The message `str(e)` gives for each error. */
  function LoadErrorText(e: LoadError): (m: string)
    ensures m != ""
    ensures e == UnsupportedFormat ==> m == "Unsupported cookies.json format"
  {
    match e
    case UnsupportedFormat => "Unsupported cookies.json format"
    case EntryNotObject(c) => "'" + TypeName(c) + "' object has no attribute 'get'"
    case UnhashableName(n) => "unhashable type: '" + TypeName(n) + "'"
  }

  /** `c.get("name")` of a list entry. */
  function NameOf(c: Value): Value
    requires c.Obj?
  {
    Get(c.fields, "name")
  }

  /** `c.get("value")` of a list entry. */
  function ValueOf(c: Value): Value
    requires c.Obj?
  {
    Get(c.fields, "value")
  }

  /** The entry is a dict whose name and value are both truthy, so it is stored. */
  predicate Keeps(c: Value)
  {
    c.Obj? && Truthy(NameOf(c)) && Truthy(ValueOf(c))
  }

  /** The entry makes the loop raise. */
  predicate Offends(c: Value)
  {
    !c.Obj? || (Keeps(c) && !Hashable(NameOf(c)))
  }

  /** Entry `i` offends and no earlier entry does. */
  predicate FirstOffender(entries: seq<Value>, i: int)
  {
    0 <= i < |entries| && Offends(entries[i]) && forall j :: 0 <= j < i ==> !Offends(entries[j])
  }

  /** The error an offending entry raises. */
  function Complaint(c: Value): LoadError
  {
    if c.Obj? then UnhashableName(NameOf(c)) else EntryNotObject(c)
  }

  /** One pass of the loop at scraper.py:45-49. */
  function Absorb(jar: Jar, c: Value): Result<Jar, LoadError>
  {
    if !c.Obj? then Failure(EntryNotObject(c))
    else if !Keeps(c) then Success(jar)
    else if !Hashable(NameOf(c)) then Failure(UnhashableName(NameOf(c)))
    else Success(jar[NameOf(c) := ValueOf(c)])
  }

  /** The list form, entries processed front to back: the result for
      `entries` is the result for all but the last, then the last one. */
  function FromList(entries: seq<Value>): Result<Jar, LoadError>
    decreases |entries|
  {
    if entries == [] then Success(map[])
    else
      match FromList(entries[..|entries| - 1])
      case Failure(e) => Failure(e)
      case Success(jar) => Absorb(jar, entries[|entries| - 1])
  }

  /** The dict form, as the keys `json.load` gives a dict: strings. */
  function FromDict(fields: map<string, Value>): Jar
  {
    map k | k in fields :: Str(k) := fields[k]
  }

  /** `load_cookies` after the file has been read and parsed. A dict is
      returned unchanged, a list is normalised, anything else is rejected. */
  function LoadCookies(data: Value): (r: Result<Jar, LoadError>)
    ensures data.Obj? ==> (
      && r.Success?
      && (forall k :: k in r.value ==> k.Str? && k.s in data.fields && r.value[k] == data.fields[k.s])
      && (forall k :: k in data.fields ==> Str(k) in r.value))
    ensures !data.Arr? && !data.Obj? ==> r == Failure(UnsupportedFormat)
    ensures data.Arr? ==> r == FromList(data.items)
  {
    match data
    case Arr(items) => FromList(items)
    case Obj(fields) => Success(FromDict(fields))
    case _ => Failure(UnsupportedFormat)
  }

  /** The names the list form stores: truthy names of entries with truthy values. */
  ghost predicate Named(entries: seq<Value>, k: Value)
  {
    exists i :: 0 <= i < |entries| && Keeps(entries[i]) && NameOf(entries[i]) == k
  }

  /** Entry `i` is stored and no later stored entry has its name. */
  predicate LastOfName(entries: seq<Value>, i: int)
    requires 0 <= i < |entries|
  {
    Keeps(entries[i]) && forall j :: i < j < |entries| && Keeps(entries[j]) ==> NameOf(entries[j]) != NameOf(entries[i])
  }

  /** A successful load of `entries` is the load of all but the last entry,
      updated by the last entry when it is stored. */
  lemma FromListLast(entries: seq<Value>)
    requires entries != [] && FromList(entries).Success?
    ensures var init := entries[..|entries| - 1];
      var c := entries[|entries| - 1];
      && FromList(init).Success?
      && FromList(entries).value == (if Keeps(c) then FromList(init).value[NameOf(c) := ValueOf(c)] else FromList(init).value)
      && (Keeps(c) ==> Hashable(NameOf(c)))
  {
  }

  /** List form: the dictionary holds exactly the names of stored entries,
      and every stored name and value is truthy. */
  lemma {:induction false} FromListKeys(entries: seq<Value>)
    requires FromList(entries).Success?
    ensures forall k :: k in FromList(entries).value <==> Named(entries, k)
    ensures forall k :: k in FromList(entries).value ==> Truthy(k) && Hashable(k) && Truthy(FromList(entries).value[k])
    decreases |entries|
  {
    if entries != [] {
      var init := entries[..|entries| - 1];
      var c := entries[|entries| - 1];
      FromListLast(entries);
      FromListKeys(init);
      var jar := FromList(entries).value;
      forall k ensures k in jar <==> Named(entries, k) {
        NamedSnoc(entries, k);
      }
    }
  }

  /** A name is stored by `entries` when the earlier entries store it or the
      last entry does. */
  lemma NamedSnoc(entries: seq<Value>, k: Value)
    requires entries != []
    ensures var c := entries[|entries| - 1];
      Named(entries, k) <==> Named(entries[..|entries| - 1], k) || (Keeps(c) && NameOf(c) == k)
  {
    var init := entries[..|entries| - 1];
    var c := entries[|entries| - 1];
    if Named(init, k) {
      var i :| 0 <= i < |init| && Keeps(init[i]) && NameOf(init[i]) == k;
      assert entries[i] == init[i];
    }
    if Named(entries, k) && !(Keeps(c) && NameOf(c) == k) {
      var i :| 0 <= i < |entries| && Keeps(entries[i]) && NameOf(entries[i]) == k;
      assert i < |init| && init[i] == entries[i];
    }
  }

  /** List form: a later entry with the same name overwrites an earlier one,
      so each name holds the value of the LAST stored entry of that name. */
  lemma {:induction false} FromListLastWins(entries: seq<Value>, i: int)
    requires FromList(entries).Success?
    requires 0 <= i < |entries| && LastOfName(entries, i)
    ensures NameOf(entries[i]) in FromList(entries).value
    ensures FromList(entries).value[NameOf(entries[i])] == ValueOf(entries[i])
    decreases |entries|
  {
    var init := entries[..|entries| - 1];
    var c := entries[|entries| - 1];
    FromListLast(entries);
    if i < |init| {
      assert init[i] == entries[i];
      assert LastOfName(init, i) by {
        forall j | i < j < |init| && Keeps(init[j]) ensures NameOf(init[j]) != NameOf(init[i]) {
          assert init[j] == entries[j];
        }
      }
      FromListLastWins(init, i);
    }
  }

  /** List form: loading fails exactly when some entry offends, and then with
      the complaint of the FIRST offending entry. */
  lemma {:induction false} FromListFailure(entries: seq<Value>)
    ensures FromList(entries).Success? <==> forall i :: 0 <= i < |entries| ==> !Offends(entries[i])
    ensures FromList(entries).Failure? ==>
      exists i :: FirstOffender(entries, i) && FromList(entries).error == Complaint(entries[i])
    decreases |entries|
  {
    if entries != [] {
      var init := entries[..|entries| - 1];
      var c := entries[|entries| - 1];
      FromListFailure(init);
      forall i | 0 <= i < |init| ensures init[i] == entries[i] { }
      if FromList(init).Success? && FromList(entries).Failure? {
        assert Offends(entries[|entries| - 1]);
      }
    }
  }
}
