/**
 * The stand-alone `Molecule` of the original package: a tuple of atoms and an
 * (n, 3) position matrix. Every `with_*` operation builds a fresh clone, so a
 * molecule is modelled as a value. The XYZ reader and writer loop over lines
 * and are methods, each proved equal to a specification function; parsing of
 * text into tokens and numbers is outside the model (the reader receives lines
 * already split into an element symbol and a position).
 */
module Molecules {
  import opened Wrappers
  import opened Geometry

  datatype Atom = Atom(id: int, element: string)

  datatype Molecule = Molecule(atoms: seq<Atom>, positions: seq<Vec>)

  /** What `get_centroid` is asked for: `None`, one `int`, or a list of ids. */
  datatype Selection = All | Single(id: int) | Ids(ids: seq<int>)

  datatype CentroidError =
    | EmptySelection   // ValueError: atom_ids was of length 0
    | IndexOutOfRange  // IndexError from numpy's column selection

  /** `Molecule.init`: the atoms (in the given order) and the rows. */
  function Init(atoms: seq<Atom>, positionMatrix: seq<Vec>): (m: Molecule)
    ensures m.atoms == atoms && m.positions == positionMatrix
  {
    Molecule(atoms, positionMatrix)
  }

  /** `get_position_matrix`: the rows, one per atom column. */
  function GetPositionMatrix(m: Molecule): seq<Vec>
  {
    m.positions
  }

  /** `get_atoms`, in input order. */
  function GetAtoms(m: Molecule): seq<Atom>
  {
    m.atoms
  }

  /** `get_num_atoms` */
  function GetNumAtoms(m: Molecule): (n: nat)
    ensures n == |GetAtoms(m)|
  {
    |m.atoms|
  }

  /** `with_position_matrix`: a clone with the given rows and the same atoms. */
  function WithPositionMatrix(m: Molecule, positionMatrix: seq<Vec>): (r: Molecule)
    ensures GetPositionMatrix(r) == positionMatrix
    ensures GetAtoms(r) == GetAtoms(m)
  {
    Init(m.atoms, positionMatrix)
  }

  /** `with_displacement`: a clone whose every row is moved by `v`. */
  function WithDisplacement(m: Molecule, v: Vec): (r: Molecule)
    ensures |r.positions| == |m.positions|
    ensures forall i :: 0 <= i < |m.positions| ==> r.positions[i] == Add(m.positions[i], v)
    ensures GetAtoms(r) == GetAtoms(m)
  {
    Init(m.atoms, Shift(m.positions, v))
  }

  // ---------------------------------------------------------------------------
  // Centroids

  /** numpy accepts a column index in [-n, n); a negative one counts from the end. */
  predicate InRange(id: int, n: nat)
  {
    -(n as int) <= id < n
  }

  function Wrap(id: int, n: nat): (k: nat)
    requires InRange(id, n)
    ensures k < n
    ensures k == id || k == id + n
  {
    if id < 0 then id + n else id
  }

  /** The ids a selection stands for: `None` is `range(len(atoms))`. */
  function SelectedIds(m: Molecule, sel: Selection): seq<int>
  {
    match sel
    case All => seq(|m.atoms|, k => k)
    case Single(i) => [i]
    case Ids(ids) => ids
  }

  /** The rows at the given column indices, `pm[:, ids].T`. */
  function Gather(pm: seq<Vec>, ids: seq<int>): (rows: seq<Vec>)
    requires forall k :: 0 <= k < |ids| ==> InRange(ids[k], |pm|)
    ensures |rows| == |ids|
  {
    seq(|ids|, k requires 0 <= k < |ids| => pm[Wrap(ids[k], |pm|)])
  }

  function SumRows(rows: seq<Vec>): Vec
  {
    if |rows| == 0 then Zero else Add(rows[0], SumRows(rows[1..]))
  }

  /** The mean row: the sum divided by the number of rows. */
  function Mean(rows: seq<Vec>): Vec
    requires |rows| > 0
  {
    Divide(SumRows(rows), |rows| as real)
  }

  /**
   * `get_centroid`: an empty selection raises before any index is looked at;
   * otherwise an index outside the matrix raises, and the centroid is the mean
   * of the selected rows (a repeated id counts twice).
   */
  function GetCentroid(m: Molecule, sel: Selection): (r: Result<Vec, CentroidError>)
    ensures r == Failure(EmptySelection) <==> |SelectedIds(m, sel)| == 0
    ensures r.Success? <==>
      && |SelectedIds(m, sel)| > 0
      && forall k :: 0 <= k < |SelectedIds(m, sel)| ==> InRange(SelectedIds(m, sel)[k], |m.positions|)
  {
    var ids := SelectedIds(m, sel);
    if |ids| == 0 then Failure(EmptySelection)
    else if exists k :: 0 <= k < |ids| && !InRange(ids[k], |m.positions|) then Failure(IndexOutOfRange)
    else Success(Mean(Gather(m.positions, ids)))
  }

  /** `with_centroid`: displace by the difference between `p` and the centroid of all atoms. */
  function WithCentroid(m: Molecule, p: Vec): (r: Result<Molecule, CentroidError>)
    ensures r.Success? <==> GetCentroid(m, All).Success?
  {
    match GetCentroid(m, All)
    case Failure(e) => Failure(e)
    case Success(c) => Success(WithDisplacement(m, Sub(p, c)))
  }

  lemma ScaleSucc(v: Vec, n: real)
    ensures Add(v, Scale(v, n)) == Scale(v, n + 1.0)
  {
    assert v.x + v.x * n == v.x * (n + 1.0);
    assert v.y + v.y * n == v.y * (n + 1.0);
    assert v.z + v.z * n == v.z * (n + 1.0);
  }

  /** Shifting every row shifts the sum by `n` times the vector. */
  lemma {:induction false} SumRowsShift(rows: seq<Vec>, v: Vec)
    ensures SumRows(Shift(rows, v)) == Add(SumRows(rows), Scale(v, |rows| as real))
  {
    if |rows| == 0 {
      assert Scale(v, 0.0) == Zero;
    } else {
      var tail := rows[1..];
      SumRowsShift(tail, v);
      assert Shift(rows, v)[1..] == Shift(tail, v);
      var n := |tail| as real;
      ScaleSucc(v, n);
      var a, b := rows[0], SumRows(tail);
      calc {
        SumRows(Shift(rows, v));
        Add(Add(a, v), Add(b, Scale(v, n)));
        Add(Add(a, b), Add(v, Scale(v, n)));
        Add(SumRows(rows), Scale(v, n + 1.0));
      }
    }
  }

  /** Gathering rows from a shifted matrix is shifting the gathered rows. */
  lemma GatherShift(pm: seq<Vec>, ids: seq<int>, v: Vec)
    requires forall k :: 0 <= k < |ids| ==> InRange(ids[k], |pm|)
    ensures Gather(Shift(pm, v), ids) == Shift(Gather(pm, ids), v)
  {
  }

  /** The mean of shifted rows is the shifted mean. */
  lemma MeanShift(rows: seq<Vec>, v: Vec)
    requires |rows| > 0
    ensures Mean(Shift(rows, v)) == Add(Mean(rows), v)
  {
    SumRowsShift(rows, v);
    DivideShift(SumRows(rows), v, |rows| as real);
  }

  lemma DivAddScaled(a: real, b: real, n: real)
    requires n != 0.0
    ensures (a + b * n) / n == a / n + b
  {
    assert (a / n + b) * n == a + b * n;
  }

  lemma DivideShift(s: Vec, v: Vec, n: real)
    requires n != 0.0
    ensures Divide(Add(s, Scale(v, n)), n) == Add(Divide(s, n), v)
  {
    DivAddScaled(s.x, v.x, n);
    DivAddScaled(s.y, v.y, n);
    DivAddScaled(s.z, v.z, n);
  }

  /** Displacing a molecule moves the centroid of any selection by the same vector. */
  lemma CentroidOfDisplacement(m: Molecule, sel: Selection, v: Vec)
    ensures GetCentroid(WithDisplacement(m, v), sel) ==
      match GetCentroid(m, sel)
      case Success(c) => Success(Add(c, v))
      case Failure(e) => Failure(e)
  {
    var ids := SelectedIds(m, sel);
    assert SelectedIds(WithDisplacement(m, v), sel) == ids;
    if GetCentroid(m, sel).Success? {
      GatherShift(m.positions, ids, v);
      MeanShift(Gather(m.positions, ids), v);
    }
  }

  /** `with_centroid(p)` puts the centroid of all atoms at `p`. */
  lemma WithCentroidPlacesCentroid(m: Molecule, p: Vec)
    requires WithCentroid(m, p).Success?
    ensures GetCentroid(WithCentroid(m, p).value, All) == Success(p)
  {
    var c := GetCentroid(m, All).value;
    CentroidOfDisplacement(m, All, Sub(p, c));
  }

  /** A single id selects that one row. */
  lemma CentroidOfSingle(m: Molecule, i: int)
    requires InRange(i, |m.positions|)
    ensures GetCentroid(m, Single(i)) == Success(m.positions[Wrap(i, |m.positions|)])
  {
    var row := m.positions[Wrap(i, |m.positions|)];
    var rows := Gather(m.positions, [i]);
    assert rows == [row];
    assert rows[1..] == [];
    assert SumRows(rows) == row;
  }

  /** The six-atom fixture: two rows of three carbons at y = 1 and y = 10. */
  function Fixture(): Molecule
  {
    Molecule(
      seq(6, k => Atom(k, "C")),
      [Vec(0.0, 1.0, 0.0), Vec(1.0, 1.0, 0.0), Vec(-1.0, 1.0, 0.0),
       Vec(0.0, 10.0, 0.0), Vec(1.0, 10.0, 0.0), Vec(-1.0, 10.0, 0.0)])
  }

  lemma FixtureCentroid()
    ensures GetCentroid(Fixture(), All) == Success(Vec(0.0, 5.5, 0.0))
  {
    var pm := Fixture().positions;
    var ids := SelectedIds(Fixture(), All);
    assert ids == [0, 1, 2, 3, 4, 5];
    assert forall k :: 0 <= k < |ids| ==> InRange(ids[k], |pm|);
    var rows := Gather(pm, ids);
    assert rows == pm;
    FixtureSum();
    assert SumRows(rows) == Vec(0.0, 33.0, 0.0);
    SixthOf33();
    assert Mean(rows) == Vec(0.0, 5.5, 0.0);
  }

  lemma SixthOf33()
    ensures Divide(Vec(0.0, 33.0, 0.0), 6.0) == Vec(0.0, 5.5, 0.0)
  {
  }

  lemma FixtureSum()
    ensures SumRows(Fixture().positions) == Vec(0.0, 33.0, 0.0)
  {
    var pm := Fixture().positions;
    assert SumRows(pm[5..]) == Vec(-1.0, 10.0, 0.0) by { assert pm[5..][1..] == []; }
    assert SumRows(pm[4..]) == Vec(0.0, 20.0, 0.0) by { assert pm[4..][1..] == pm[5..]; }
    assert SumRows(pm[3..]) == Vec(0.0, 30.0, 0.0) by { assert pm[3..][1..] == pm[4..]; }
    assert SumRows(pm[2..]) == Vec(-1.0, 31.0, 0.0) by { assert pm[2..][1..] == pm[3..]; }
    assert SumRows(pm[1..]) == Vec(0.0, 32.0, 0.0) by { assert pm[1..][1..] == pm[2..]; }
  }

  // ---------------------------------------------------------------------------
  // Element symbols

  predicate IsUpper(c: char) { 'A' <= c <= 'Z' }
  predicate IsLower(c: char) { 'a' <= c <= 'z' }
  predicate IsCased(c: char) { IsUpper(c) || IsLower(c) }

  function ToUpper(c: char): char { if IsLower(c) then (c as int - 32) as char else c }
  function ToLower(c: char): char { if IsUpper(c) then (c as int + 32) as char else c }

  /**
   * `str.title` from a position whose predecessor was cased (`afterCased`) or
   * not: a cased character is upper-cased at the start of a word and
   * lower-cased inside one; anything else is kept and ends the word.
   */
  function TitleFrom(s: string, afterCased: bool): (r: string)
    ensures |r| == |s|
    ensures forall i :: 0 <= i < |s| ==> (IsCased(r[i]) <==> IsCased(s[i]))
  {
    if |s| == 0 then ""
    else
      var c := s[0];
      var d := if !IsCased(c) then c else if afterCased then ToLower(c) else ToUpper(c);
      [d] + TitleFrom(s[1..], IsCased(c))
  }

  /** `str.title` on ASCII text. */
  function TitleCase(s: string): string
  {
    TitleFrom(s, false)
  }

  /**
   * Position `i` of `s` is title-cased: a cased character there is upper-case
   * exactly when it starts a word (the text before `s` ended in a cased
   * character when `afterCased` holds).
   */
  predicate TitledAt(s: string, i: int, afterCased: bool)
    requires 0 <= i < |s|
  {
    IsCased(s[i]) ==> (IsUpper(s[i]) <==> if i == 0 then !afterCased else !IsCased(s[i - 1]))
  }

  predicate TitledFrom(s: string, afterCased: bool)
  {
    forall i :: 0 <= i < |s| ==> TitledAt(s, i, afterCased)
  }

  /** Title-cased text: every cased character is upper-case exactly when it starts a word. */
  predicate IsTitled(s: string)
  {
    TitledFrom(s, false)
  }

  lemma {:induction false} TitleFromIsTitled(s: string, afterCased: bool)
    ensures TitledFrom(TitleFrom(s, afterCased), afterCased)
  {
    if |s| > 0 {
      var t := s[1..];
      TitleFromIsTitled(t, IsCased(s[0]));
      var r := TitleFrom(s, afterCased);
      var rt := TitleFrom(t, IsCased(s[0]));
      assert r == [r[0]] + rt;
      forall i | 0 <= i < |r|
        ensures TitledAt(r, i, afterCased)
      {
        if i > 0 {
          assert TitledAt(rt, i - 1, IsCased(s[0]));
          assert r[i] == rt[i - 1];
          if i > 1 {
            assert r[i - 1] == rt[i - 2];
          } else {
            assert IsCased(r[0]) == IsCased(s[0]);
          }
        }
      }
    }
  }

  /** The result of `title` is title-cased, whatever the input. */
  lemma TitleCaseIsTitled(s: string)
    ensures IsTitled(TitleCase(s))
  {
    TitleFromIsTitled(s, false);
  }

  /** Title-cased text is a fixed point of `title`. */
  lemma {:induction false} TitleFromOfTitled(s: string, afterCased: bool)
    requires TitledFrom(s, afterCased)
    ensures TitleFrom(s, afterCased) == s
  {
    if |s| > 0 {
      var t := s[1..];
      forall i | 0 <= i < |t|
        ensures TitledAt(t, i, IsCased(s[0]))
      {
        assert TitledAt(s, i + 1, afterCased);
        assert t[i] == s[i + 1];
        if i > 0 {
          assert t[i - 1] == s[i];
        }
      }
      TitleFromOfTitled(t, IsCased(s[0]));
      var c := s[0];
      assert TitledAt(s, 0, afterCased);
      var d := if !IsCased(c) then c else if afterCased then ToLower(c) else ToUpper(c);
      assert d == c;
      assert TitleFrom(s, afterCased) == [d] + TitleFrom(t, IsCased(c));
      assert s == [s[0]] + t;
    }
  }

  /** `title` is idempotent, so an element symbol is title-cased once and for all. */
  lemma TitleCaseIdempotent(s: string)
    ensures TitleCase(TitleCase(s)) == TitleCase(s)
  {
    TitleCaseIsTitled(s);
    var t := TitleCase(s);
    TitleFromOfTitled(t, false);
  }

  /** XYZ files may spell element symbols in any case. */
  lemma TitleCaseExamples()
    ensures TitleCase("CL") == "Cl"
    ensures TitleCase("cl") == "Cl"
    ensures TitleCase("n") == "N"
  {
  }

  // ---------------------------------------------------------------------------
  // XYZ content

  /** One atom line of an XYZ file, already split into its symbol and coordinates. */
  datatype XyzLine = XyzLine(element: string, position: Vec)

  /** An XYZ file: the atom count of the first line, the comment line, the atom lines. */
  datatype XyzFile = XyzFile(atomCount: int, comment: string, lines: seq<XyzLine>)

  datatype XyzError =
    | NoAtomLines              // the loop variable is unbound after an empty loop
    | CountMismatch(found: nat, declared: int)  // RuntimeError

  /** What reading an XYZ file yields: ids 0..k-1 in line order, title-cased symbols. */
  function XyzMolecule(f: XyzFile): (r: Result<Molecule, XyzError>)
    ensures r.Success? <==> |f.lines| > 0 && |f.lines| == f.atomCount
    ensures r.Success? ==> |r.value.atoms| == |r.value.positions| == |f.lines|
  {
    if |f.lines| == 0 then Failure(NoAtomLines)
    else if |f.lines| != f.atomCount then Failure(CountMismatch(|f.lines|, f.atomCount))
    else Success(Molecule(
      seq(|f.lines|, k requires 0 <= k < |f.lines| => Atom(k, TitleCase(f.lines[k].element))),
      seq(|f.lines|, k requires 0 <= k < |f.lines| => f.lines[k].position)))
  }

  /** `Molecule.__init__(path)`: collect atoms and rows line by line, then check the count. */
  method ReadXyz(f: XyzFile) returns (r: Result<Molecule, XyzError>)
    ensures r == XyzMolecule(f)
  {
    var atoms: seq<Atom> := [];
    var coords: seq<Vec> := [];
    var i := 0;
    while i < |f.lines|
      invariant 0 <= i <= |f.lines|
      invariant |atoms| == |coords| == i
      invariant forall k :: 0 <= k < i ==> atoms[k] == Atom(k, TitleCase(f.lines[k].element))
      invariant forall k :: 0 <= k < i ==> coords[k] == f.lines[k].position
    {
      var line := f.lines[i];
      atoms := atoms + [Atom(i, TitleCase(line.element))];
      coords := coords + [line.position];
      i := i + 1;
    }
    if i == 0 {
      return Failure(NoAtomLines);
    }
    if i != f.atomCount {
      return Failure(CountMismatch(i, f.atomCount));
    }
    assert atoms == XyzMolecule(f).value.atoms;
    assert coords == XyzMolecule(f).value.positions;
    r := Success(Molecule(atoms, coords));
  }

  /** One entry of the written content: the count header (with a blank comment) or an atom line. */
  datatype XyzRecord = Header(count: int) | AtomRecord(element: string, position: Vec)

  datatype WriteError =
    | NoAtoms            // the loop variable is unbound after an empty loop
    | RowOutOfRange      // IndexError on `coords[atom.get_id()]`

  /** What `_write_xyz_content` produces: the header, then one line per atom at its id's row. */
  function XyzContent(m: Molecule): (r: Result<seq<XyzRecord>, WriteError>)
    ensures r.Success? <==>
      |m.atoms| > 0 && forall k :: 0 <= k < |m.atoms| ==> InRange(m.atoms[k].id, |m.positions|)
    ensures r.Success? ==> |r.value| == |m.atoms| + 1 && r.value[0] == Header(|m.atoms|)
  {
    if exists k :: 0 <= k < |m.atoms| && !InRange(m.atoms[k].id, |m.positions|) then
      Failure(RowOutOfRange)
    else if |m.atoms| == 0 then Failure(NoAtoms)
    else Success([Header(|m.atoms|)] + seq(|m.atoms|, k requires 0 <= k < |m.atoms| =>
      AtomRecord(m.atoms[k].element, m.positions[Wrap(m.atoms[k].id, |m.positions|)])))
  }

  /** `_write_xyz_content`: the loop over atoms, then the header patched in. */
  method WriteXyzContent(m: Molecule) returns (r: Result<seq<XyzRecord>, WriteError>)
    ensures r == XyzContent(m)
  {
    var content: seq<XyzRecord> := [Header(0)];
    var i := 0;
    while i < |m.atoms|
      invariant 0 <= i <= |m.atoms|
      invariant |content| == i + 1 && content[0] == Header(0)
      invariant forall k :: 0 <= k < i ==> InRange(m.atoms[k].id, |m.positions|)
      invariant forall k :: 0 <= k < i ==>
        content[k + 1] == AtomRecord(m.atoms[k].element, m.positions[Wrap(m.atoms[k].id, |m.positions|)])
    {
      var atom := m.atoms[i];
      if !InRange(atom.id, |m.positions|) {
        return Failure(RowOutOfRange);
      }
      content := content + [AtomRecord(atom.element, m.positions[Wrap(atom.id, |m.positions|)])];
      i := i + 1;
    }
    if i == 0 {
      return Failure(NoAtoms);
    }
    assert [Header(i)] + content[1..] == XyzContent(m).value;
    r := Success([Header(i)] + content[1..]);
  }

  /** Reading written content back as a file. */
  function AsFile(content: seq<XyzRecord>): XyzFile
    requires |content| > 0 && content[0].Header?
    requires forall k :: 1 <= k < |content| ==> content[k].AtomRecord?
  {
    XyzFile(content[0].count, "",
      seq(|content| - 1, k requires 0 <= k < |content| - 1 =>
        XyzLine(content[k + 1].element, content[k + 1].position)))
  }

  /**
   * Writing a molecule whose atoms carry ids 0..n-1 and title-cased symbols, then
   * reading the content back, gives the molecule again.
   */
  lemma XyzRoundTrip(m: Molecule)
    requires |m.atoms| > 0 && |m.positions| == |m.atoms|
    requires forall k :: 0 <= k < |m.atoms| ==> m.atoms[k].id == k
    requires forall k :: 0 <= k < |m.atoms| ==> IsTitled(m.atoms[k].element)
    ensures XyzContent(m).Success?
    ensures XyzMolecule(AsFile(XyzContent(m).value)) == Success(m)
  {
    var content := XyzContent(m).value;
    var f := AsFile(content);
    assert |f.lines| == |m.atoms| == f.atomCount;
    var back := XyzMolecule(f).value;
    forall k | 0 <= k < |m.atoms|
      ensures back.atoms[k] == m.atoms[k]
    {
      TitleFromOfTitled(m.atoms[k].element, false);
    }
    assert back.atoms == m.atoms;
    assert back.positions == m.positions;
  }

  /** Reading checks the count: the molecule read has as many atoms as the header says. */
  lemma ReadCountMatchesHeader(f: XyzFile)
    requires XyzMolecule(f).Success?
    ensures GetNumAtoms(XyzMolecule(f).value) == f.atomCount
  {
  }
}
