/** Variables.java: the variable store shared by an Expression and the console.  It is
    a TreeMap ordered by String.CASE_INSENSITIVE_ORDER; here it is a map keyed by the
    folded name, whose entries remember the spelling under which the name was first
    put (TreeMap.put keeps the existing key and replaces only the value). */
module Variables {
  import opened Outcomes
  import opened Text
  import opened Values

  datatype Binding = Binding(key: string, value: Value)

  type Store = map<string, Binding>

  /** Every entry sits under the folded form of its own key. */
  ghost predicate WellKeyed(s: Store)
  {
    forall f :: f in s ==> Fold(s[f].key) == f
  }

  /** The first characters `put` refuses; the test is case-sensitive. */
  predicate Reserved(c: char)
  {
    c == 'x' || c == 'o' || c == 'b' || c == 'h'
  }

  /** Variables.put(k, v) on the store `s`: k.charAt(0) fails on an empty name, a
      reserved first character is refused, otherwise the entry equal to `k` ignoring
      case receives `v`. */
  function Assign(s: Store, k: string, v: Value): (r: Result<Store>)
    ensures k == [] ==> r == Err(IndexOutOfBounds)
    ensures k != [] && Reserved(k[0]) ==> r == Err(NotAllowedFirstChar(k[0]))
    ensures r.Ok? <==> k != [] && !Reserved(k[0])
    ensures r.Ok? ==> r.value.Keys == s.Keys + {Fold(k)}
    ensures r.Ok? && WellKeyed(s) ==> WellKeyed(r.value)
  {
    if k == [] then Err(IndexOutOfBounds)
    else if Reserved(k[0]) then Err(NotAllowedFirstChar(k[0]))
    else
      var key := if Fold(k) in s then s[Fold(k)].key else k;
      Ok(s[Fold(k) := Binding(key, v)])
  }

  /** Variables.containsKey */
  predicate Contains(s: Store, k: string)
  {
    Fold(k) in s
  }

  /** Variables.get: None stands for Java's null. */
  function Lookup(s: Store, k: string): (r: Option<Value>)
    ensures r.Some? <==> Contains(s, k)
  {
    if Fold(k) in s then Some(s[Fold(k)].value) else None
  }

  /** After a successful put, every spelling of the name that is equal ignoring case
      finds the new value. */
  lemma PutThenGet(s: Store, k: string, v: Value, k2: string)
    requires Assign(s, k, v).Ok?
    requires Fold(k2) == Fold(k)
    ensures Contains(Assign(s, k, v).value, k2)
    ensures Lookup(Assign(s, k, v).value, k2) == Some(v)
  {
  }

  /** A put touches no other entry. */
  lemma PutFrame(s: Store, k: string, v: Value, k2: string)
    requires Assign(s, k, v).Ok?
    requires Fold(k2) != Fold(k)
    ensures Contains(Assign(s, k, v).value, k2) == Contains(s, k2)
    ensures Lookup(Assign(s, k, v).value, k2) == Lookup(s, k2)
  {
  }

  /** A put of a name already present keeps the spelling it was first stored under. */
  lemma PutKeepsSpelling(s: Store, k: string, v: Value)
    requires Assign(s, k, v).Ok? && Contains(s, k)
    ensures Assign(s, k, v).value[Fold(k)].key == s[Fold(k)].key
    ensures Assign(s, k, v).value.Keys == s.Keys
  {
  }

  /** The check looks at the first character only and is case-sensitive: the
      console's BUILD constant is accepted, `build` is refused. */
  lemma ReservedIsCaseSensitive(s: Store, v: Value)
    ensures Assign(s, "BUILD", v).Ok?
    ensures Assign(s, "build", v) == Err(NotAllowedFirstChar('b'))
    ensures Assign(s, "hx", v).Err? && Assign(s, "Hx", v).Ok?
  {
  }

  /** The mutable store object. */
  class Variables {
    var bindings: Store

    /** A new, empty store. */
    constructor ()
      ensures bindings == map[]
    {
      bindings := map[];
    }

    /** Variables.put: on failure the exception leaves the map as it was. */
    method Put(k: string, v: Value) returns (r: Outcome)
      modifies this
      ensures Assign(old(bindings), k, v).Ok? ==> r == Pass && bindings == Assign(old(bindings), k, v).value
      ensures Assign(old(bindings), k, v).Err? ==> r == Fail(Assign(old(bindings), k, v).error) && bindings == old(bindings)
    {
      if k == [] {
        return Fail(IndexOutOfBounds);
      }
      var c := k[0];
      if c == 'x' || c == 'o' || c == 'b' || c == 'h' {
        return Fail(NotAllowedFirstChar(c));
      }
      var f := Fold(k);
      var key := if f in bindings then bindings[f].key else k;
      bindings := bindings[f := Binding(key, v)];
      return Pass;
    }

    /** Variables.getMap: the store itself, not a copy. */
    function GetMap(): Store
      reads this
    {
      bindings
    }

    /** Variables.containsKey: some stored name equals `k` ignoring case. */
    function ContainsKey(k: string): (b: bool)
      reads this
      ensures WellKeyed(bindings) ==> (b <==> exists f :: f in bindings && Fold(bindings[f].key) == Fold(k))
    {
      Contains(bindings, k)
    }

    /** Variables.get: the value stored under the name equal to `k` ignoring case,
        or null when there is none. */
    function Get(k: string): (r: Option<Value>)
      reads this
      ensures r.Some? <==> ContainsKey(k)
      ensures r.Some? ==> r.value == bindings[Fold(k)].value
    {
      Lookup(bindings, k)
    }

    /** Variables.setMap: the whole store is replaced. */
    method SetMap(m: Store)
      modifies this
      ensures bindings == m
    {
      bindings := m;
    }
  }
}
