// Structural difference and union of configuration structs, and the precedence
// of flags over the file over the defaults that they are used for.
module Ref {
  import opened Wrappers

  // A scalar field; its kind is its type.
  datatype Scalar = Num(n: int) | Text(s: string) | Flag(b: bool)

  // A struct of fields, each a scalar or a struct.
  datatype Value = Leaf(v: Scalar) | Struct(fields: seq<Value>)

  function ZeroOf(v: Scalar): Scalar {
    match v case Num(_) => Num(0) case Text(_) => Text("") case Flag(_) => Flag(false)
  }

  predicate SameKind(a: Scalar, b: Scalar) { ZeroOf(a) == ZeroOf(b) }

  // Both values have the same Go type.
  predicate SameType(x: Value, y: Value) {
    match (x, y)
    case (Leaf(a), Leaf(b)) => SameKind(a, b)
    case (Struct(xs), Struct(ys)) => |xs| == |ys| && forall i :: 0 <= i < |xs| ==> SameType(xs[i], ys[i])
    case _ => false
  }

  function Zero(x: Value): Value {
    match x
    case Leaf(v) => Leaf(ZeroOf(v))
    case Struct(xs) => Struct(seq(|xs|, i requires 0 <= i < |xs| => Zero(xs[i])))
  }

  // reflect.DeepEqual with the zero value of its type.
  predicate Blank(x: Value) { x == Zero(x) }

  lemma {:induction false} ZeroSameType(x: Value)
    ensures SameType(x, Zero(x)) && SameType(Zero(x), x) && Zero(Zero(x)) == Zero(x)
    decreases x
  {
    match x
    case Leaf(_) =>
    case Struct(xs) =>
      forall i | 0 <= i < |xs|
        ensures SameType(xs[i], Zero(xs[i])) && SameType(Zero(xs[i]), xs[i]) && Zero(Zero(xs[i])) == Zero(xs[i])
      {
        ZeroSameType(xs[i]);
      }
  }

  lemma {:induction false} SameTypeSymmetric(x: Value, y: Value)
    requires SameType(x, y)
    ensures SameType(y, x)
    decreases x
  {
    if x.Struct? {
      forall i | 0 <= i < |x.fields| ensures SameType(y.fields[i], x.fields[i]) {
        SameTypeSymmetric(x.fields[i], y.fields[i]);
      }
    }
  }

  lemma {:induction false} SameTypeTransitive(x: Value, y: Value, z: Value)
    requires SameType(x, y) && SameType(y, z)
    ensures SameType(x, z)
    decreases x
  {
    if x.Struct? {
      forall i | 0 <= i < |x.fields| ensures SameType(x.fields[i], z.fields[i]) {
        SameTypeTransitive(x.fields[i], y.fields[i], z.fields[i]);
      }
    }
  }

  // --- What Diff and Union compute ---

  // The fields of x that differ from y; the others are zero.
  function Minus(x: Value, y: Value): Value
    requires SameType(x, y)
  {
    match x
    case Leaf(v) => if x == y then Leaf(ZeroOf(v)) else x
    case Struct(xs) => Struct(seq(|xs|, i requires 0 <= i < |xs| => Minus(xs[i], y.fields[i])))
  }

  // x with the fields of y that are not zero.
  function Plus(x: Value, y: Value): Value
    requires SameType(x, y)
  {
    match x
    case Leaf(_) => if Blank(y) then x else y
    case Struct(xs) => Struct(seq(|xs|, i requires 0 <= i < |xs| => Plus(xs[i], y.fields[i])))
  }

  lemma {:induction false} MinusSameType(x: Value, y: Value)
    requires SameType(x, y)
    ensures SameType(x, Minus(x, y))
    decreases x
  {
    match x
    case Leaf(_) =>
    case Struct(xs) =>
      forall i | 0 <= i < |xs| ensures SameType(xs[i], Minus(xs[i], y.fields[i])) {
        MinusSameType(xs[i], y.fields[i]);
      }
  }

  lemma {:induction false} PlusSameType(x: Value, y: Value)
    requires SameType(x, y)
    ensures SameType(x, Plus(x, y))
    decreases x
  {
    match x
    case Leaf(_) =>
    case Struct(xs) =>
      forall i | 0 <= i < |xs| ensures SameType(xs[i], Plus(xs[i], y.fields[i])) {
        PlusSameType(xs[i], y.fields[i]);
      }
  }

  // A field that is blank altogether, or equal on both sides, can be skipped.
  lemma {:induction false} PlusShortcuts(x: Value, y: Value)
    requires SameType(x, y)
    ensures Blank(y) || x == y ==> Plus(x, y) == x
    decreases x
  {
    match x
    case Leaf(_) =>
    case Struct(xs) =>
      forall i | 0 <= i < |xs| ensures Blank(y) || x == y ==> Plus(xs[i], y.fields[i]) == xs[i] {
        PlusShortcuts(xs[i], y.fields[i]);
        assert Zero(y).fields[i] == Zero(y.fields[i]);
      }
  }

  // --- Diff and Union themselves ---

  method Diff(x: Value, y: Value) returns (r: Result<Value, string>)
    ensures r.Ok? <==> x.Struct? && SameType(x, y)
    ensures r.Ok? ==> r.value == Minus(x, y)
    decreases x
  {
    if !x.Struct? { return Err("interface ref type must be struct"); }
    if !SameType(x, y) { return Err("not the same type obj"); }
    var z := Zero(x).fields;
    for i := 0 to |x.fields|
      invariant |z| == |x.fields|
      invariant forall j :: 0 <= j < i ==> z[j] == Minus(x.fields[j], y.fields[j])
      invariant forall j :: i <= j < |z| ==> z[j] == Zero(x.fields[j])
    {
      var xf, yf := x.fields[i], y.fields[i];
      if xf.Struct? {
        var diff := Diff(xf, yf);
        if diff.Err? { return diff; }
        z := z[i := diff.value];
      } else if xf != yf {
        z := z[i := xf];
      }
    }
    return Ok(Struct(z));
  }

  method Union(x: Value, y: Value) returns (r: Result<Value, string>)
    requires x.Struct? && y.Struct?
    ensures r.Ok? <==> x == y || SameType(x, y)
    ensures SameType(x, y) && r.Ok? ==> r.value == Plus(x, y)
    decreases x
  {
    if SameType(x, y) { PlusShortcuts(x, y); }
    if x == y { return Ok(x); }
    if !SameType(x, y) { return Err("not the same type obj"); }
    var z := x.fields;
    for i := 0 to |z|
      invariant |z| == |x.fields|
      invariant forall j :: 0 <= j < i ==> z[j] == Plus(x.fields[j], y.fields[j])
      invariant forall j :: i <= j < |z| ==> z[j] == x.fields[j]
    {
      var yf := y.fields[i];
      PlusShortcuts(z[i], yf);
      if !Blank(yf) {
        if yf.Struct? {
          var union := Union(z[i], yf);
          if union.Err? { return union; }
          z := z[i := union.value];
        } else {
          z := z[i := yf];
        }
      }
    }
    return Ok(Struct(z));
  }

  // --- Leaves ---

  // The scalar that a path of field numbers leads to.
  function At(x: Value, path: seq<nat>): Option<Scalar> {
    match x
    case Leaf(v) => if path == [] then Some(v) else None
    case Struct(xs) => if path == [] || path[0] >= |xs| then None else At(xs[path[0]], path[1..])
  }

  predicate BlankScalar(v: Scalar) { v == ZeroOf(v) }

  lemma {:induction false} SameLeaves(x: Value, y: Value, path: seq<nat>)
    requires SameType(x, y)
    ensures At(x, path).Some? <==> At(y, path).Some?
    ensures At(x, path).Some? ==> SameKind(At(x, path).value, At(y, path).value)
    decreases x
  {
    if x.Struct? && path != [] && path[0] < |x.fields| { SameLeaves(x.fields[path[0]], y.fields[path[0]], path[1..]); }
  }

  lemma {:induction false} MinusAt(x: Value, y: Value, path: seq<nat>)
    requires SameType(x, y)
    ensures At(Minus(x, y), path) ==
      if At(x, path).None? then None
      else if At(x, path) == At(y, path) then Some(ZeroOf(At(x, path).value)) else At(x, path)
    decreases x
  {
    if x.Struct? && path != [] && path[0] < |x.fields| { MinusAt(x.fields[path[0]], y.fields[path[0]], path[1..]); }
  }

  lemma {:induction false} PlusAt(x: Value, y: Value, path: seq<nat>)
    requires SameType(x, y)
    ensures At(Plus(x, y), path) ==
      if At(x, path).None? then None
      else if At(y, path).Some? && !BlankScalar(At(y, path).value) then At(y, path) else At(x, path)
    decreases x
  {
    if x.Struct? && path != [] && path[0] < |x.fields| { PlusAt(x.fields[path[0]], y.fields[path[0]], path[1..]); }
  }

  // Values of one type are determined by their leaves.
  lemma {:induction false} LeavesDetermine(x: Value, y: Value)
    requires SameType(x, y) && forall path :: At(x, path) == At(y, path)
    ensures x == y
    decreases x
  {
    match x
    case Leaf(_) => assert At(x, []) == At(y, []);
    case Struct(xs) =>
      forall i: nat | i < |xs| ensures xs[i] == y.fields[i] {
        forall path ensures At(xs[i], path) == At(y.fields[i], path) {
          assert At(x, [i] + path) == At(y, [i] + path);
          assert ([i] + path)[1..] == path;
        }
        LeavesDetermine(xs[i], y.fields[i]);
      }
  }

  // --- completeConfig ---

  // The value that wins at one leaf.
  function Pick(def: Scalar, file: Scalar, flag: Scalar): Scalar {
    if flag != def && !BlankScalar(flag) then flag
    else if !BlankScalar(file) then file
    else def
  }

  // The default overlaid with what the file and then the flags change of it.
  function Completed(def: Value, file: Value, flags: Value): (r: Value)
    requires SameType(file, def) && SameType(flags, def)
    ensures SameType(def, r)
  {
    ChangesSameType(def, file, flags);
    Plus(def, Plus(Minus(file, def), Minus(flags, def)))
  }

  lemma ChangesSameType(def: Value, file: Value, flags: Value)
    requires SameType(file, def) && SameType(flags, def)
    ensures SameType(Minus(file, def), Minus(flags, def))
    ensures var both := Plus(Minus(file, def), Minus(flags, def));
      SameType(def, both) && SameType(def, Plus(def, both))
  {
    MinusSameType(flags, def); MinusSameType(file, def);
    SameTypeSymmetric(file, def); SameTypeSymmetric(flags, def);
    SameTypeTransitive(def, file, Minus(file, def));
    SameTypeTransitive(def, flags, Minus(flags, def));
    SameTypeSymmetric(def, Minus(file, def));
    SameTypeTransitive(Minus(file, def), def, Minus(flags, def));
    var both := Plus(Minus(file, def), Minus(flags, def));
    PlusSameType(Minus(file, def), Minus(flags, def));
    SameTypeTransitive(def, Minus(file, def), both);
    PlusSameType(def, both);
  }

  method CompleteConfig(def: Value, file: Value, flags: Value) returns (r: Result<Value, string>)
    requires def.Struct? && SameType(file, def) && SameType(flags, def)
    ensures r == Ok(Completed(def, file, flags))
  {
    ChangesSameType(def, file, flags);
    var input := Diff(flags, def);
    var load := Diff(file, def);
    var both := Union(load.value, input.value);
    r := Union(def, both.value);
  }

  // At every leaf.
  lemma CompletedAt(def: Value, file: Value, flags: Value, path: seq<nat>)
    requires SameType(file, def) && SameType(flags, def)
    ensures var leaf := At(Completed(def, file, flags), path);
      && (leaf.Some? <==> At(def, path).Some?)
      && (leaf.Some? ==> At(file, path).Some? && At(flags, path).Some?)
      && (leaf.Some? ==> leaf.value == Pick(At(def, path).value, At(file, path).value, At(flags, path).value))
  {
    ChangesSameType(def, file, flags);
    var both := Plus(Minus(file, def), Minus(flags, def));
    MinusAt(flags, def, path); MinusAt(file, def, path);
    PlusAt(Minus(file, def), Minus(flags, def), path); PlusAt(def, both, path);
    SameLeaves(file, def, path); SameLeaves(flags, def, path);
    hide Plus, Minus, SameType, At;
  }

  // The flag's value is what a leaf has in the end exactly when it is a non-zero
  // change of the default, or what the file and the default would give anyway.
  lemma FlagWinsIff(def: Value, file: Value, flags: Value, path: seq<nat>)
    requires SameType(file, def) && SameType(flags, def) && At(def, path).Some?
    ensures At(file, path).Some? && At(flags, path).Some?
    ensures var (d, f, flag) := (At(def, path).value, At(file, path).value, At(flags, path).value);
      At(Completed(def, file, flags), path) == Some(flag) <==>
        (flag != d && !BlankScalar(flag)) || flag == (if BlankScalar(f) then d else f)
  {
    CompletedAt(def, file, flags, path);
    hide Completed, At, SameType;
  }

  // So a flag set to its default value loses to the file.
  lemma FlagAtDefaultLoses(def: Value, file: Value, flags: Value, path: seq<nat>)
    requires SameType(file, def) && SameType(flags, def) && At(def, path).Some? && At(flags, path) == At(def, path)
    ensures At(file, path).Some? &&
      (!BlankScalar(At(file, path).value) ==> At(Completed(def, file, flags), path) == At(file, path))
  {
    CompletedAt(def, file, flags, path);
    hide Completed, At, SameType;
  }

  function Restored(def: Value, x: Value): Value
    requires SameType(x, def)
  {
    MinusSameType(x, def);
    SameTypeSymmetric(x, def);
    SameTypeTransitive(def, x, Minus(x, def));
    Plus(def, Minus(x, def))
  }

  // A changed leaf is not changed to zero.
  predicate NotZeroed(def: Value, x: Value, path: seq<nat>) {
    At(x, path).Some? && At(x, path) != At(def, path) ==> !BlankScalar(At(x, path).value)
  }

  lemma RestoredAt(def: Value, x: Value, path: seq<nat>)
    requires SameType(x, def)
    ensures At(Restored(def, x), path) == At(x, path) <==> NotZeroed(def, x, path)
  {
    var d := Minus(x, def);
    assert SameType(def, d) by {
      MinusSameType(x, def);
      SameTypeSymmetric(x, def);
      SameTypeTransitive(def, x, d);
    }
    MinusAt(x, def, path);
    PlusAt(def, d, path);
    SameLeaves(x, def, path);
  }

  // Adding the difference to the default gives x back exactly when every leaf
  // that differs from the default is non-zero.
  lemma UnionOfDiffIff(def: Value, x: Value)
    requires SameType(x, def)
    ensures Restored(def, x) == x <==> forall path :: NotZeroed(def, x, path)
  {
    var y := Restored(def, x);
    forall path ensures At(y, path) == At(x, path) <==> NotZeroed(def, x, path) { RestoredAt(def, x, path); }
    assert SameType(x, y) by {
      MinusSameType(x, def);
      SameTypeSymmetric(x, def);
      SameTypeTransitive(def, x, Minus(x, def));
      PlusSameType(def, Minus(x, def));
      SameTypeTransitive(x, def, y);
    }
    hide Restored, NotZeroed, At, SameType;
    if forall path :: NotZeroed(def, x, path) { LeavesDetermine(x, y); }
  }

  // --- Slices ---

  function Without<T(==)>(xs: seq<T>, ys: seq<T>): seq<T> {
    if xs == [] then []
    else Without(xs[..|xs|-1], ys) + if xs[|xs|-1] in ys then [] else [xs[|xs|-1]]
  }

  // Element by element, in order.
  lemma {:induction false} WithoutSplits<T>(a: seq<T>, b: seq<T>, ys: seq<T>)
    ensures Without(a + b, ys) == Without(a, ys) + Without(b, ys)
    ensures |a| == 1 ==> Without(a, ys) == if a[0] in ys then [] else a
    decreases |b|
  {
    if |a| == 1 { assert a[..0] == [] && Without([], ys) == [] && [a[0]] == a; }
    if b == [] {
      assert a + b == a;
    } else {
      assert (a + b)[..|a + b|-1] == a + b[..|b|-1];
      WithoutSplits(a, b[..|b|-1], ys);
    }
  }

  method Contains<T(==)>(y: array<T>, v: T) returns (found: bool)
    ensures found <==> v in y[..]
  {
    for j := 0 to y.Length
      invariant forall k :: 0 <= k < j ==> v != y[k]
    {
      if v == y[j] { return true; }
    }
    return false;
  }

  lemma WithoutSnoc<T>(xs: seq<T>, ys: seq<T>, i: nat)
    requires i < |xs|
    ensures Without(xs[..i+1], ys) == Without(xs[..i], ys) + if xs[i] in ys then [] else [xs[i]]
  {
    assert xs[..i+1][..i] == xs[..i];
  }

  method CopyOf<T(0)>(x: array<T>) returns (z: array<T>)
    ensures fresh(z) && z.Length == x.Length && z[..] == x[..]
  {
    z := new T[x.Length];
    for k := 0 to x.Length
      invariant z[..k] == x[..k]
    {
      z[k] := x[k];
    }
  }

  // x has been gone through up to i; its rest is still where zidx points.
  ghost predicate Progress<T>(z: seq<T>, zidx: nat, length: nat, x: seq<T>, y: seq<T>, i: nat) {
    && i <= |x| && length == zidx + |x| - i && length <= |z|
    && z[..zidx] == Without(x[..i], y) && z[zidx..length] == x[i..]
  }

  lemma ProgressStart<T>(x: seq<T>, y: seq<T>)
    ensures Progress(x, 0, |x|, x, y, 0)
  {
  }

  lemma ProgressDelete<T>(z: seq<T>, z': seq<T>, zidx: nat, length: nat, x: seq<T>, y: seq<T>, i: nat)
    requires Progress(z, zidx, length, x, y, i) && i < |x| && x[i] in y && |z'| == |z|
    requires z'[..zidx] == z[..zidx] && z'[zidx..length-1] == z[zidx..length][1..]
    ensures Progress(z', zidx, length - 1, x, y, i + 1)
  {
    WithoutSnoc(x, y, i);
  }

  lemma ProgressKeep<T>(z: seq<T>, zidx: nat, length: nat, x: seq<T>, y: seq<T>, i: nat)
    requires Progress(z, zidx, length, x, y, i) && i < |x| && x[i] !in y
    ensures Progress(z, zidx + 1, length, x, y, i + 1)
  {
    WithoutSnoc(x, y, i);
    assert z[zidx] == z[zidx..length][0];
    assert z[..zidx+1] == z[..zidx] + [x[i]];
  }

  lemma ProgressEnd<T>(z: seq<T>, zidx: nat, length: nat, x: seq<T>, y: seq<T>)
    requires Progress(z, zidx, length, x, y, |x|)
    ensures length <= |z| && z[..length] == Without(x, y)
  {
    assert x[..|x|] == x;
  }

  // sliceDiff without keys: copies x and deletes from the copy, in place, while
  // going over x; zidx is where the copy of x[i] has moved to. Nothing is
  // returned when the slices are equal.
  method SliceDiff<T(==,0)>(x: array<T>, y: array<T>) returns (z: array<T>, length: nat)
    ensures fresh(z) && length <= z.Length
    ensures z[..length] == Without(x[..], y[..])
  {
    if x[..] == y[..] {
      AllGone(x[..], y[..]);
      z, length := new T[0], 0;
      assert z[..length] == [];
    } else {
      z, length := DeleteFound(x, y);
    }
  }

  method DeleteFound<T(==,0)>(x: array<T>, y: array<T>) returns (z: array<T>, length: nat)
    ensures fresh(z) && length <= z.Length
    ensures z[..length] == Without(x[..], y[..])
  {
    z := CopyOf(x);
    length := z.Length;
    var zidx := 0;
    ghost var xs, ys := x[..], y[..];
    ProgressStart(xs, ys);
    hide Progress, Without;
    for i := 0 to x.Length
      invariant fresh(z) && x[..] == xs && y[..] == ys && z.Length == x.Length
      invariant length == zidx + (x.Length - i) && length <= z.Length
      invariant Progress(z[..], zidx, length, xs, ys, i)
    {
      var found := Contains(y, x[i]);
      ghost var zs := z[..];
      if found {
        Delete(z, zidx, length);
        ProgressDelete(zs, z[..], zidx, length, xs, ys, i);
        length := length - 1;
      } else {
        ProgressKeep(zs, zidx, length, xs, ys, i);
        zidx := zidx + 1;
      }
    }
    ProgressEnd(z[..], zidx, length, xs, ys);
  }

  // AppendSlice(z[:at], z[at+1:length]) within one backing array.
  method Delete<T>(z: array<T>, at: nat, length: nat)
    requires at < length <= z.Length
    modifies z
    ensures z[..at] == old(z[..at]) && z[at..length-1] == old(z[at..length][1..])
  {
    for k := at to length - 1
      invariant z[..at] == old(z[..at])
      invariant forall i :: at <= i < k ==> z[i] == old(z[i + 1])
      invariant forall i :: k <= i < length ==> z[i] == old(z[i])
    {
      z[k] := z[k + 1];
    }
  }

  lemma {:induction false} AllGone<T>(xs: seq<T>, ys: seq<T>)
    requires forall x :: x in xs ==> x in ys
    ensures Without(xs, ys) == []
    decreases |xs|
  {
    if xs != [] { AllGone(xs[..|xs|-1], ys); }
  }

  // What is left: exactly the elements of x that y lacks, in order.
  lemma {:induction false} WithoutKeeps<T>(xs: seq<T>, ys: seq<T>, x: T)
    ensures multiset(Without(xs, ys))[x] == if x in ys then 0 else multiset(xs)[x]
    decreases |xs|
  {
    if xs != [] {
      var (front, last) := (xs[..|xs|-1], xs[|xs|-1]);
      WithoutKeeps(front, ys, x);
      assert xs == front + [last] && Without(xs, ys) == Without(front, ys) + if last in ys then [] else [last];
      hide Without;
      assert multiset(front + [last]) == multiset(front) + multiset{last};
      if last !in ys { assert multiset(Without(front, ys) + [last]) == multiset(Without(front, ys)) + multiset{last}; }
    }
  }
}
