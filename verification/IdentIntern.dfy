/** Interned, case-preserving identifiers (ident.canonicalMap and its users). */
module IdentIntern {
  // The interned objects. None of them changes once it exists; lowered is the
  // object itself if it is its own canonical form.

  class Atom {
    const raw: string
    const lowered: Atom

    constructor (raw: string, low: Atom?)
      ensures this.raw == raw && lowered == if low == null then this else low
    {
      this.raw := raw;
      if low == null { lowered := this; } else { lowered := low; }
    }
  }

  // An array of at most two atoms, filled from the left.
  datatype ArrayKey = ArrayKey(first: Atom?, second: Atom?)

  class Array {
    const key: ArrayKey
    const lowered: Array

    constructor (key: ArrayKey, low: Array?)
      ensures this.key == key && lowered == if low == null then this else low
    {
      this.key := key;
      if low == null { lowered := this; } else { lowered := low; }
    }
  }

  datatype QualifiedKey = QualifiedKey(namespace: Array?, terminal: Atom?)

  class Qualified {
    const key: QualifiedKey
    const lowered: Qualified

    constructor (key: QualifiedKey, low: Qualified?)
      ensures this.key == key && lowered == if low == null then this else low
    {
      this.key := key;
      if low == null { lowered := this; } else { lowered := low; }
    }
  }

  type Atoms = map<string, Atom>
  type Arrays = map<ArrayKey, Array>
  type Qualifieds = map<QualifiedKey, Qualified>

  function LowerArrayKey(key: ArrayKey): ArrayKey {
    if key.first == null then ArrayKey(null, null)
    else ArrayKey(key.first.lowered, if key.second == null then null else key.second.lowered)
  }

  function LowerQualifiedKey(key: QualifiedKey): QualifiedKey {
    QualifiedKey(if key.namespace == null then null else key.namespace.lowered,
                 if key.terminal == null then null else key.terminal.lowered)
  }

  ghost predicate HasAtom(atoms: Atoms, a: Atom?) {
    a != null ==> a.raw in atoms && atoms[a.raw] == a
  }

  ghost predicate HasArray(arrays: Arrays, a: Array?) {
    a != null ==> a.key in arrays && arrays[a.key] == a
  }

  // Each object is found under its key, and so is its canonical form.
  ghost predicate AtomsOk(lower: string -> string, atoms: Atoms) {
    forall k | k in atoms :: atoms[k].raw == k && lower(k) in atoms && atoms[k].lowered == atoms[lower(k)]
  }

  ghost predicate ArraysOk(atoms: Atoms, arrays: Arrays) {
    && (forall k | k in arrays :: HasAtom(atoms, k.first) && HasAtom(atoms, k.second))
    && (forall k | k in arrays ::
          arrays[k].key == k && LowerArrayKey(k) in arrays && arrays[k].lowered == arrays[LowerArrayKey(k)])
  }

  ghost predicate QualifiedsOk(atoms: Atoms, arrays: Arrays, qualifieds: Qualifieds) {
    && (forall k | k in qualifieds :: HasArray(arrays, k.namespace) && HasAtom(atoms, k.terminal))
    && (forall k | k in qualifieds ::
          qualifieds[k].key == k && LowerQualifiedKey(k) in qualifieds
          && qualifieds[k].lowered == qualifieds[LowerQualifiedKey(k)])
  }

  // Nothing that was interned is forgotten or replaced.
  ghost predicate Extends<K, V>(a: map<K, V>, b: map<K, V>) {
    forall k | k in a :: k in b && b[k] == a[k]
  }

  lemma AtomsGrow(atoms: Atoms, more: Atoms, arrays: Arrays, qualifieds: Qualifieds)
    requires ArraysOk(atoms, arrays) && QualifiedsOk(atoms, arrays, qualifieds) && Extends(atoms, more)
    ensures ArraysOk(more, arrays) && QualifiedsOk(more, arrays, qualifieds)
  {
    forall k | k in arrays ensures HasAtom(more, k.first) && HasAtom(more, k.second) {
      assert HasAtom(atoms, k.first) && HasAtom(atoms, k.second);
    }
    forall k | k in qualifieds ensures HasAtom(more, k.terminal) {
      assert HasAtom(atoms, k.terminal);
    }
  }

  lemma ArraysGrow(atoms: Atoms, arrays: Arrays, more: Arrays, qualifieds: Qualifieds)
    requires QualifiedsOk(atoms, arrays, qualifieds) && Extends(arrays, more)
    ensures QualifiedsOk(atoms, more, qualifieds)
  {
    forall k | k in qualifieds ensures HasArray(more, k.namespace) {
      assert HasArray(arrays, k.namespace);
    }
  }

  // A new object may be stored if it is its own canonical form or refers to it.

  ghost predicate NewAtom(lower: string -> string, atoms: Atoms, key: string, r: Atom) {
    && key !in atoms && r.raw == key
    && if lower(key) == key then r.lowered == r else lower(key) in atoms && r.lowered == atoms[lower(key)]
  }

  lemma PutAtom(lower: string -> string, atoms: Atoms, key: string, r: Atom)
    requires AtomsOk(lower, atoms) && NewAtom(lower, atoms, key, r)
    ensures AtomsOk(lower, atoms[key := r]) && Extends(atoms, atoms[key := r])
  {
  }

  ghost predicate NewArray(atoms: Atoms, arrays: Arrays, key: ArrayKey, r: Array) {
    && key !in arrays && r.key == key && HasAtom(atoms, key.first) && HasAtom(atoms, key.second)
    && if LowerArrayKey(key) == key then r.lowered == r
       else LowerArrayKey(key) in arrays && r.lowered == arrays[LowerArrayKey(key)]
  }

  lemma PutArray(atoms: Atoms, arrays: Arrays, key: ArrayKey, r: Array)
    requires ArraysOk(atoms, arrays) && NewArray(atoms, arrays, key, r)
    ensures ArraysOk(atoms, arrays[key := r]) && Extends(arrays, arrays[key := r])
  {
    hide LowerArrayKey, HasAtom;
  }

  ghost predicate NewQualified(atoms: Atoms, arrays: Arrays, qualifieds: Qualifieds, key: QualifiedKey, r: Qualified) {
    && key !in qualifieds && r.key == key && HasArray(arrays, key.namespace) && HasAtom(atoms, key.terminal)
    && if LowerQualifiedKey(key) == key then r.lowered == r
       else LowerQualifiedKey(key) in qualifieds && r.lowered == qualifieds[LowerQualifiedKey(key)]
  }

  lemma PutQualified(atoms: Atoms, arrays: Arrays, qualifieds: Qualifieds, key: QualifiedKey, r: Qualified)
    requires QualifiedsOk(atoms, arrays, qualifieds) && NewQualified(atoms, arrays, qualifieds, key, r)
    ensures QualifiedsOk(atoms, arrays, qualifieds[key := r]) && Extends(qualifieds, qualifieds[key := r])
  {
    hide LowerQualifiedKey, HasAtom, HasArray;
  }

  // What may be stored still may be once more has been, unless its key is taken.

  lemma AtomStaysNew(lower: string -> string, atoms: Atoms, more: Atoms, key: string, r: Atom)
    requires NewAtom(lower, atoms, key, r) && Extends(atoms, more) && key !in more
    ensures NewAtom(lower, more, key, r)
  {
  }

  lemma ArrayStaysNew(atoms: Atoms, moreAtoms: Atoms, arrays: Arrays, more: Arrays, key: ArrayKey, r: Array)
    requires NewArray(atoms, arrays, key, r) && Extends(atoms, moreAtoms) && Extends(arrays, more) && key !in more
    ensures NewArray(moreAtoms, more, key, r)
  {
  }

  lemma QualifiedStaysNew(atoms: Atoms, moreAtoms: Atoms, arrays: Arrays, moreArrays: Arrays, qualifieds: Qualifieds,
                          more: Qualifieds, key: QualifiedKey, r: Qualified)
    requires NewQualified(atoms, arrays, qualifieds, key, r) && key !in more
    requires Extends(atoms, moreAtoms) && Extends(arrays, moreArrays) && Extends(qualifieds, more)
    ensures NewQualified(moreAtoms, moreArrays, more, key, r)
  {
  }

  ghost predicate Idempotent(lower: string -> string) {
    forall s :: lower(lower(s)) == lower(s)
  }

  lemma LowerAtomTwice(lower: string -> string, atoms: Atoms, a: Atom)
    requires Idempotent(lower) && AtomsOk(lower, atoms) && HasAtom(atoms, a)
    ensures HasAtom(atoms, a.lowered) && a.lowered.raw == lower(a.raw) && a.lowered.lowered == a.lowered
  {
    assert atoms[a.raw] == a;
    assert atoms[lower(a.raw)] == a.lowered;
  }

  lemma LowerArrayTwice(lower: string -> string, atoms: Atoms, key: ArrayKey)
    requires Idempotent(lower) && AtomsOk(lower, atoms) && HasAtom(atoms, key.first) && HasAtom(atoms, key.second)
    ensures LowerArrayKey(LowerArrayKey(key)) == LowerArrayKey(key)
    ensures HasAtom(atoms, LowerArrayKey(key).first) && HasAtom(atoms, LowerArrayKey(key).second)
  {
    if key.first != null {
      LowerAtomTwice(lower, atoms, key.first);
      if key.second != null {
        LowerAtomTwice(lower, atoms, key.second);
      }
    }
  }

  lemma LowerQualifiedTwice(lower: string -> string, atoms: Atoms, arrays: Arrays, key: QualifiedKey)
    requires Idempotent(lower) && AtomsOk(lower, atoms) && ArraysOk(atoms, arrays)
    requires HasArray(arrays, key.namespace) && HasAtom(atoms, key.terminal)
    ensures LowerQualifiedKey(LowerQualifiedKey(key)) == LowerQualifiedKey(key)
    ensures HasArray(arrays, LowerQualifiedKey(key).namespace) && HasAtom(atoms, LowerQualifiedKey(key).terminal)
  {
    if key.terminal != null {
      LowerAtomTwice(lower, atoms, key.terminal);
    }
    if key.namespace != null {
      assert arrays[key.namespace.key] == key.namespace;
      LowerArrayTwice(lower, atoms, key.namespace.key);
      assert arrays[LowerArrayKey(key.namespace.key)] == key.namespace.lowered;
    }
  }

  // Compound and simple identifiers.
  datatype Id = AtomId(atom: Atom?) | ArrayId(array: Array?) | QualifiedId(qualified: Qualified?)

  predicate EmptyAtom(a: Atom?) {
    a == null || a.raw == ""
  }

  predicate EmptyArray(a: Array?) {
    a == null || (EmptyAtom(a.key.first) && EmptyAtom(a.key.second))
  }

  predicate Empty(id: Id) {
    match id
    case AtomId(a) => EmptyAtom(a)
    case ArrayId(a) => EmptyArray(a)
    case QualifiedId(q) => q == null || (EmptyArray(q.key.namespace) && EmptyAtom(q.key.terminal))
  }

  // No part is empty, and a missing namespace is nil.
  predicate ProperArray(a: Array?) {
    a == null || if a.key.first == null then a.key.second == null
                 else a.key.first.raw != "" && (a.key.second != null ==> a.key.second.raw != "")
  }

  predicate Proper(id: Id) {
    match id
    case AtomId(a) => a == null || a.raw != ""
    case ArrayId(a) => ProperArray(a)
    case QualifiedId(q) =>
      q == null || (!EmptyAtom(q.key.terminal) && ProperArray(q.key.namespace)
                    && (q.key.namespace == null || q.key.namespace.key.first != null))
  }

  function ArrayParts(a: Array?): seq<Atom> {
    if a == null || a.key.first == null then []
    else [a.key.first] + if a.key.second == null then [] else [a.key.second]
  }

  function Parts(id: Id): seq<Atom> {
    match id
    case AtomId(a) => if a == null then [] else [a]
    case ArrayId(a) => ArrayParts(a)
    case QualifiedId(q) =>
      if q == null || q.key.terminal == null then [] else ArrayParts(q.key.namespace) + [q.key.terminal]
  }

  // Part by part, without regard to case; what runs out first sorts first.
  function CompareParts(lower: string -> string, cmp: (string, string) -> int, a: seq<Atom>, b: seq<Atom>): int {
    if a == [] then if b == [] then 0 else -1
    else if b == [] then 1
    else
      var c := cmp(lower(a[0].raw), lower(b[0].raw));
      if c != 0 then c else CompareParts(lower, cmp, a[1..], b[1..])
  }

  predicate SameParts(lower: string -> string, a: seq<Atom>, b: seq<Atom>) {
    |a| == |b| && forall i | 0 <= i < |a| :: lower(a[i].raw) == lower(b[i].raw)
  }

  lemma {:induction false} EqualIff(lower: string -> string, cmp: (string, string) -> int, a: seq<Atom>, b: seq<Atom>)
    requires forall x, y :: cmp(x, y) == 0 <==> x == y
    ensures CompareParts(lower, cmp, a, b) == 0 <==> SameParts(lower, a, b)
  {
    if a != [] && b != [] {
      EqualIff(lower, cmp, a[1..], b[1..]);
      assert a == [a[0]] + a[1..] && b == [b[0]] + b[1..];
    }
  }

  // The first parts that differ decide; a proper prefix comes first.
  lemma {:induction false} FirstDifferenceDecides(lower: string -> string, cmp: (string, string) -> int, a: seq<Atom>,
                                                  b: seq<Atom>, n: nat)
    requires forall x, y :: cmp(x, y) == 0 <==> x == y
    requires n <= |a| && n <= |b| && SameParts(lower, a[..n], b[..n])
    ensures n == |a| == |b| ==> CompareParts(lower, cmp, a, b) == 0
    ensures n == |a| < |b| ==> CompareParts(lower, cmp, a, b) < 0
    ensures n == |b| < |a| ==> CompareParts(lower, cmp, a, b) > 0
    ensures n < |a| && n < |b| && lower(a[n].raw) != lower(b[n].raw) ==>
              CompareParts(lower, cmp, a, b) == cmp(lower(a[n].raw), lower(b[n].raw)) != 0
  {
    if n > 0 {
      assert a[..n][0] == a[0] && b[..n][0] == b[0];
      var p, q := a[1..][..n - 1], b[1..][..n - 1];
      forall i | 0 <= i < n - 1 ensures lower(p[i].raw) == lower(q[i].raw) {
        assert p[i] == a[..n][i + 1] && q[i] == b[..n][i + 1];
      }
      FirstDifferenceDecides(lower, cmp, a[1..], b[1..], n - 1);
    }
  }

  class Registry {
    const lower: string -> string
    // strings.Compare
    const cmp: (string, string) -> int
    var atoms: Atoms
    var arrays: Arrays
    var qualifieds: Qualifieds

    ghost predicate Valid()
      reads this
    {
      && Idempotent(lower) && (forall x, y :: cmp(x, y) == 0 <==> x == y)
      && AtomsOk(lower, atoms) && ArraysOk(atoms, arrays) && QualifiedsOk(atoms, arrays, qualifieds)
    }

    constructor (lower: string -> string, cmp: (string, string) -> int)
      requires Idempotent(lower) && forall x, y :: cmp(x, y) == 0 <==> x == y
      ensures Valid() && this.lower == lower && this.cmp == cmp
    {
      this.lower, this.cmp := lower, cmp;
      atoms, arrays, qualifieds := map[], map[], map[];
    }

    // What any call may do, also through other goroutines: it only adds objects.
    twostate predicate Grown()
      reads this
    {
      && Valid() && Extends(old(atoms), atoms) && Extends(old(arrays), arrays)
      && Extends(old(qualifieds), qualifieds)
    }

    // Any number of other goroutines intern what they like: a caller may rely on
    // nothing but this contract.
    method Elsewhere()
      requires Valid()
      modifies this
      ensures Grown()
    {
    }

    // Get-or-create. The object is made outside the lock, so that another
    // goroutine may have made one for the same key in the meantime; whoever
    // comes second drops its own.
    method GetAtom(key: string) returns (r: Atom)
      requires Valid()
      modifies this
      ensures Grown() && key in atoms && r == atoms[key] && r.raw == key
      decreases if lower(key) == key then 0 else 1
    {
      hide AtomsOk, ArraysOk, QualifiedsOk, NewAtom;
      Elsewhere();
      if key in atoms {
        AtomIsFound(lower, atoms, key);
        return atoms[key];
      }
      r := LazyAtom(key);
      label Made:
      Elsewhere();
      if key !in atoms {
        AtomStaysNew(lower, old@Made(atoms), atoms, key, r);
        StoreAtom(key, r);
      }
      AtomIsFound(lower, atoms, key);
      r := atoms[key];
    }

    method StoreAtom(key: string, r: Atom)
      requires Valid() && NewAtom(lower, atoms, key, r)
      modifies `atoms
      ensures Valid() && atoms == old(atoms)[key := r] && Extends(old(atoms), atoms)
    {
      hide AtomsOk, ArraysOk, QualifiedsOk, NewAtom;
      PutAtom(lower, atoms, key, r);
      AtomsGrow(atoms, atoms[key := r], arrays, qualifieds);
      atoms := atoms[key := r];
    }

    // Makes the object for a key, and interns what it refers to.
    method LazyAtom(key: string) returns (r: Atom)
      requires Valid()
      modifies this
      ensures Grown() && (key !in atoms ==> NewAtom(lower, atoms, key, r))
      decreases if lower(key) == key then 0 else 1, 0
    {
      hide AtomsOk, ArraysOk, QualifiedsOk;
      var loweredKey := lower(key);
      if loweredKey == key {
        r := new Atom(key, null);
      } else {
        var low := GetAtom(loweredKey);
        r := new Atom(key, low);
      }
    }

    method GetArray(key: ArrayKey) returns (r: Array)
      requires Valid() && HasAtom(atoms, key.first) && HasAtom(atoms, key.second)
      modifies this
      ensures Grown() && key in arrays && r == arrays[key] && r.key == key
      decreases if LowerArrayKey(key) == key then 0 else 1
    {
      hide AtomsOk, ArraysOk, QualifiedsOk, NewArray, LowerArrayKey;
      Elsewhere();
      if key in arrays {
        ArrayIsFound(atoms, arrays, key);
        return arrays[key];
      }
      r := LazyArray(key);
      label Made:
      Elsewhere();
      if key !in arrays {
        ArrayStaysNew(old@Made(atoms), atoms, old@Made(arrays), arrays, key, r);
        StoreArray(key, r);
      }
      ArrayIsFound(atoms, arrays, key);
      r := arrays[key];
    }

    method StoreArray(key: ArrayKey, r: Array)
      requires Valid() && NewArray(atoms, arrays, key, r)
      modifies `arrays
      ensures Valid() && arrays == old(arrays)[key := r] && Extends(old(arrays), arrays)
    {
      hide AtomsOk, ArraysOk, QualifiedsOk, NewArray, LowerArrayKey;
      PutArray(atoms, arrays, key, r);
      ArraysGrow(atoms, arrays, arrays[key := r], qualifieds);
      arrays := arrays[key := r];
    }

    // Makes the object for a key, and interns what it refers to.
    method LazyArray(key: ArrayKey) returns (r: Array)
      requires Valid() && HasAtom(atoms, key.first) && HasAtom(atoms, key.second)
      modifies this
      ensures Grown() && (key !in arrays ==> NewArray(atoms, arrays, key, r))
      decreases if LowerArrayKey(key) == key then 0 else 1, 0
    {
      hide AtomsOk, ArraysOk, QualifiedsOk, LowerArrayKey;
      LowerArrayTwice(lower, atoms, key);
      var loweredKey := LowerArrayKey(key);
      if loweredKey == key {
        r := new Array(key, null);
      } else {
        var low := GetArray(loweredKey);
        r := new Array(key, low);
      }
    }

    method GetQualified(key: QualifiedKey) returns (r: Qualified)
      requires Valid() && HasArray(arrays, key.namespace) && HasAtom(atoms, key.terminal)
      modifies this
      ensures Grown() && key in qualifieds && r == qualifieds[key] && r.key == key
      decreases if LowerQualifiedKey(key) == key then 0 else 1
    {
      hide AtomsOk, ArraysOk, QualifiedsOk, NewQualified, LowerQualifiedKey;
      Elsewhere();
      if key in qualifieds {
        QualifiedIsFound(atoms, arrays, qualifieds, key);
        return qualifieds[key];
      }
      r := LazyQualified(key);
      label Made:
      Elsewhere();
      if key !in qualifieds {
        QualifiedStaysNew(old@Made(atoms), atoms, old@Made(arrays), arrays, old@Made(qualifieds), qualifieds, key, r);
        StoreQualified(key, r);
      }
      QualifiedIsFound(atoms, arrays, qualifieds, key);
      r := qualifieds[key];
    }

    method StoreQualified(key: QualifiedKey, r: Qualified)
      requires Valid() && NewQualified(atoms, arrays, qualifieds, key, r)
      modifies `qualifieds
      ensures Valid() && qualifieds == old(qualifieds)[key := r] && Extends(old(qualifieds), qualifieds)
    {
      hide AtomsOk, ArraysOk, QualifiedsOk, NewQualified, LowerQualifiedKey;
      PutQualified(atoms, arrays, qualifieds, key, r);
      qualifieds := qualifieds[key := r];
    }

    // Makes the object for a key, and interns what it refers to.
    method LazyQualified(key: QualifiedKey) returns (r: Qualified)
      requires Valid() && HasArray(arrays, key.namespace) && HasAtom(atoms, key.terminal)
      modifies this
      ensures Grown() && (key !in qualifieds ==> NewQualified(atoms, arrays, qualifieds, key, r))
      decreases if LowerQualifiedKey(key) == key then 0 else 1, 0
    {
      hide AtomsOk, ArraysOk, QualifiedsOk, LowerQualifiedKey;
      LowerQualifiedTwice(lower, atoms, arrays, key);
      var loweredKey := LowerQualifiedKey(key);
      if loweredKey == key {
        r := new Qualified(key, null);
      } else {
        var low := GetQualified(loweredKey);
        r := new Qualified(key, low);
      }
    }

    // The identifier is one of those interned here.
    ghost predicate Has(id: Id)
      reads this
    {
      match id
      case AtomId(a) => HasAtom(atoms, a)
      case ArrayId(a) => HasArray(arrays, a)
      case QualifiedId(q) => q != null ==> q.key in qualifieds && qualifieds[q.key] == q
    }

    // The first part, and an identifier of what remains.
    method Split(id: Id) returns (first: Atom?, rest: Id)
      requires Valid() && Has(id)
      modifies this
      ensures Grown() && Has(rest) && HasAtom(atoms, first)
      ensures Proper(id) && !Empty(id) ==> first != null && Parts(id) == [first] + Parts(rest) && Proper(rest)
    {
      hide AtomsOk, ArraysOk, QualifiedsOk, Idempotent, LowerArrayKey;
      match id
      case AtomId(a) =>
        first, rest := a, AtomId(null);
      case ArrayId(a) =>
        first, rest := SplitArray(a);
      case QualifiedId(q) =>
        first, rest := SplitQualified(q);
    }

    method SplitArray(a: Array?) returns (first: Atom?, rest: Id)
      requires Valid() && HasArray(arrays, a)
      modifies this
      ensures Grown() && Has(rest) && HasAtom(atoms, first)
      ensures ProperArray(a) && !EmptyArray(a) ==>
                first != null && ArrayParts(a) == [first] + Parts(rest) && Proper(rest)
    {
      hide AtomsOk, ArraysOk, QualifiedsOk, Idempotent, LowerArrayKey, ProperArray, ArrayParts, EmptyArray;
      first, rest := null, AtomId(null);
      if !EmptyArray(a) {
        NotNil(a);
        PartsAreInterned(a);
        first := a.key.first;
        var next := GetArray(ArrayKey(a.key.second, null));
        ShiftedArray(a, next);
        rest := ArrayId(next);
      }
    }

    // The parts of the namespace move up, and the terminal follows them.
    method SplitQualified(q: Qualified?) returns (first: Atom?, rest: Id)
      requires Valid() && Has(QualifiedId(q))
      modifies this
      ensures Grown() && Has(rest) && HasAtom(atoms, first)
      ensures Proper(QualifiedId(q)) && !Empty(QualifiedId(q)) ==>
                first != null && Parts(QualifiedId(q)) == [first] + Parts(rest) && Proper(rest)
    {
      hide AtomsOk, ArraysOk, Idempotent;
      if Empty(QualifiedId(q)) {
        first, rest := null, AtomId(null);
      } else if EmptyArray(q.key.namespace) {
        first, rest := q.key.terminal, AtomId(null);
        assert HasAtom(atoms, q.key.terminal);
      } else {
        first, rest := Shift(q);
      }
    }

    method Shift(q: Qualified) returns (first: Atom?, rest: Id)
      requires Valid() && Has(QualifiedId(q)) && !EmptyArray(q.key.namespace)
      modifies this
      ensures Grown() && Has(rest) && HasAtom(atoms, first)
      ensures Proper(QualifiedId(q)) ==>
                first != null && Parts(QualifiedId(q)) == [first] + Parts(rest) && Proper(rest)
    {
      assert HasArray(arrays, q.key.namespace) && HasAtom(atoms, q.key.terminal);
      hide AtomsOk, ArraysOk, QualifiedsOk, Idempotent, LowerArrayKey, ProperArray, ArrayParts, EmptyArray, Proper,
           Parts, Extends, LowerQualifiedKey;
      NotNil(q.key.namespace);
      PartsAreInterned(q.key.namespace);
      var namespace := q.key.namespace.key;
      first := namespace.first;
      var next := GetArray(if namespace.second == null then ArrayKey(q.key.terminal, null)
                           else ArrayKey(namespace.second, q.key.terminal));
      ShiftedTable(q, next);
      rest := ArrayId(next);
    }

    lemma NotNil(a: Array?)
      requires !EmptyArray(a)
      ensures a != null
    {
    }

    lemma PartsAreInterned(a: Array)
      requires Valid() && HasArray(arrays, a)
      ensures HasAtom(atoms, a.key.first) && HasAtom(atoms, a.key.second)
    {
    }

    method Compare(a: Id, b: Id) returns (c: int)
      requires Valid() && Has(a) && Has(b) && Proper(a) && Proper(b)
      modifies this
      ensures Grown()
      ensures c == CompareParts(lower, cmp, Parts(a), Parts(b))
    {
      hide AtomsOk, ArraysOk, QualifiedsOk, Idempotent;
      var x, y := a, b;
      while !Empty(x) && !Empty(y)
        invariant Grown() && Has(x) && Has(y) && Proper(x) && Proper(y)
        invariant CompareParts(lower, cmp, Parts(a), Parts(b)) == CompareParts(lower, cmp, Parts(x), Parts(y))
        decreases |Parts(x)|
      {
        var xPart, xRest := Split(x);
        var yPart, yRest := Split(y);
        LowerAtomTwice(lower, atoms, xPart);
        LowerAtomTwice(lower, atoms, yPart);
        var part := cmp(xPart.lowered.raw, yPart.lowered.raw);
        if part != 0 {
          return part;
        }
        x, y := xRest, yRest;
      }
      if Empty(x) {
        return if Empty(y) then 0 else -1;
      }
      return 1;
    }

    method Equal(a: Id, b: Id) returns (same: bool)
      requires Valid() && Has(a) && Has(b) && Proper(a) && Proper(b)
      modifies this
      ensures Grown()
      ensures same <==> SameParts(lower, Parts(a), Parts(b))
    {
      var c := Compare(a, b);
      EqualIff(lower, cmp, Parts(a), Parts(b));
      return c == 0;
    }

    // Maps use the lowered objects as keys: that is the same as comparing.

    lemma SameAtoms(a: Atom, b: Atom)
      requires Valid() && HasAtom(atoms, a) && HasAtom(atoms, b)
      ensures lower(a.raw) == lower(b.raw) <==> a.lowered == b.lowered
    {
      LowerAtomTwice(lower, atoms, a);
      LowerAtomTwice(lower, atoms, b);
      assert atoms[lower(a.raw)] == a.lowered && atoms[lower(b.raw)] == b.lowered;
    }

    lemma SameArrayKeys(a: Array, b: Array)
      requires Valid() && HasArray(arrays, a) && HasArray(arrays, b) && ProperArray(a) && ProperArray(b)
      ensures SameParts(lower, ArrayParts(a), ArrayParts(b)) <==> LowerArrayKey(a.key) == LowerArrayKey(b.key)
    {
      hide AtomsOk, QualifiedsOk, Idempotent;
      assert HasAtom(atoms, a.key.first) && HasAtom(atoms, a.key.second);
      assert HasAtom(atoms, b.key.first) && HasAtom(atoms, b.key.second);
      var p, q := ArrayParts(a), ArrayParts(b);
      if a.key.first != null && b.key.first != null {
        SameAtoms(a.key.first, b.key.first);
        assert p[0] == a.key.first && q[0] == b.key.first;
        if a.key.second != null && b.key.second != null {
          SameAtoms(a.key.second, b.key.second);
          assert p[1] == a.key.second && q[1] == b.key.second;
        }
      }
    }

    // Two schemas are equal part by part exactly if they have one lowered object.
    lemma SameSchemas(a: Array, b: Array)
      requires Valid() && HasArray(arrays, a) && HasArray(arrays, b) && ProperArray(a) && ProperArray(b)
      ensures SameParts(lower, ArrayParts(a), ArrayParts(b)) <==> a.lowered == b.lowered
      ensures a.lowered.lowered == a.lowered && HasArray(arrays, a.lowered)
    {
      hide AtomsOk, QualifiedsOk;
      SameArrayKeys(a, b);
      LowerArrayTwice(lower, atoms, a.key);
      assert arrays[a.key] == a && arrays[b.key] == b;
      assert arrays[LowerArrayKey(a.key)] == a.lowered && arrays[LowerArrayKey(b.key)] == b.lowered;
    }

    // So are two tables.
    lemma SameTables(a: Qualified, b: Qualified)
      requires Valid() && Has(QualifiedId(a)) && Has(QualifiedId(b)) && Proper(QualifiedId(a)) && Proper(QualifiedId(b))
      ensures SameParts(lower, Parts(QualifiedId(a)), Parts(QualifiedId(b))) <==> a.lowered == b.lowered
      ensures a.lowered.lowered == a.lowered && Has(QualifiedId(a.lowered))
    {
      hide AtomsOk, ArraysOk;
      LowerQualifiedTwice(lower, atoms, arrays, a.key);
      assert qualifieds[a.key] == a && qualifieds[b.key] == b;
      assert HasArray(arrays, a.key.namespace) && HasArray(arrays, b.key.namespace);
      assert qualifieds[LowerQualifiedKey(a.key)] == a.lowered && qualifieds[LowerQualifiedKey(b.key)] == b.lowered;
      SameAtoms(a.key.terminal, b.key.terminal);
      if a.key.namespace != null && b.key.namespace != null {
        SameSchemas(a.key.namespace, b.key.namespace);
      }
      LastPart(ArrayParts(a.key.namespace), a.key.terminal, ArrayParts(b.key.namespace), b.key.terminal);
    }

    lemma LastPart(a: seq<Atom>, x: Atom, b: seq<Atom>, y: Atom)
      ensures SameParts(lower, a + [x], b + [y]) <==> SameParts(lower, a, b) && lower(x.raw) == lower(y.raw)
    {
      if SameParts(lower, a + [x], b + [y]) {
        assert (a + [x])[|a|] == x && (b + [y])[|b|] == y;
        forall i | 0 <= i < |a| ensures lower(a[i].raw) == lower(b[i].raw) {
          assert (a + [x])[i] == a[i] && (b + [y])[i] == b[i];
        }
      }
    }
  }

  lemma ShiftedArray(a: Array, next: Array)
    requires !EmptyArray(a) && next.key == ArrayKey(a.key.second, null)
    ensures ProperArray(a) ==>
              a.key.first != null && ArrayParts(a) == [a.key.first] + ArrayParts(next) && ProperArray(next)
  {
  }

  lemma ShiftedTable(q: Qualified, next: Array)
    requires !EmptyArray(q.key.namespace)
    requires var namespace := q.key.namespace.key;
             next.key == if namespace.second == null then ArrayKey(q.key.terminal, null)
                         else ArrayKey(namespace.second, q.key.terminal)
    ensures var first := q.key.namespace.key.first;
            Proper(QualifiedId(q)) ==>
              first != null && Parts(QualifiedId(q)) == [first] + Parts(ArrayId(next)) && Proper(ArrayId(next))
  {
  }

  lemma ArrayIsFound(atoms: Atoms, arrays: Arrays, key: ArrayKey)
    requires ArraysOk(atoms, arrays) && key in arrays
    ensures arrays[key].key == key
  {
  }

  lemma QualifiedIsFound(atoms: Atoms, arrays: Arrays, qualifieds: Qualifieds, key: QualifiedKey)
    requires QualifiedsOk(atoms, arrays, qualifieds) && key in qualifieds
    ensures qualifieds[key].key == key
  {
  }

  lemma AtomIsFound(lower: string -> string, atoms: Atoms, key: string)
    requires AtomsOk(lower, atoms) && key in atoms
    ensures atoms[key].raw == key && HasAtom(atoms, atoms[key])
  {
  }
}
