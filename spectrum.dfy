/**
 * The selection bookkeeping of the spectrum chooser dialog. Each spectrum row
 * of the table has a list of band selection flags, a counter of selected
 * bands and a tristate value (`SelectionAdmin`, three parallel lists); the
 * table model (`SpectrumTableModel`) keeps the tristate column, writes the
 * selection back to the displayed spectra, and guards its updates with the
 * `selectionChangeLock` flag. Rendering, icons and Swing events are not
 * modelled; a band-table edit is the call `BandSelectionEdited`.
 */
module Spectrum {
  import opened Wrappers

  /** The states of JIDE's `TristateCheckBox`. */
  datatype TriState = Unselected | Selected | Mixed

  /** A line style and a symbol (opaque `Stroke` and `Shape` values). */
  datatype Stroke = Stroke(id: nat)
  datatype Shape = Shape(id: nat)

  /**
   * A `DisplayableSpectrum` as far as the chooser uses it: its name, optional
   * line style and symbol, one selection flag per spectral band, and whether
   * the spectrum as a whole is selected.
   */
  datatype DisplayableSpectrum = DisplayableSpectrum(
    name: string, lineStyle: Option<Stroke>, symbol: Option<Shape>,
    bandSelected: seq<bool>, selected: bool)

  /** The number of `true` flags. */
  function CountTrue(flags: seq<bool>): (n: nat)
    ensures n <= |flags|
  {
    if flags == [] then 0 else (if flags[0] then 1 else 0) + CountTrue(flags[1..])
  }

  /** `evaluate`'s rule: the tristate value for a counter and a number of flags. */
  function StateFor(count: int, size: nat): (s: TriState)
    ensures s == Unselected <==> count == 0
    ensures s == Selected <==> count != 0 && count == size
    ensures s == Mixed <==> count != 0 && count != size
  {
    if count == 0 then Unselected else if count == size then Selected else Mixed
  }

  lemma {:induction false} CountTrueAppend(flags: seq<bool>, b: bool)
    ensures CountTrue(flags + [b]) == CountTrue(flags) + (if b then 1 else 0)
  {
    if flags != [] {
      assert (flags + [b])[1..] == flags[1..] + [b];
      CountTrueAppend(flags[1..], b);
    }
  }

  lemma {:induction false} CountTrueConcat(a: seq<bool>, b: seq<bool>)
    ensures CountTrue(a + b) == CountTrue(a) + CountTrue(b)
  {
    if a != [] {
      assert (a + b)[1..] == a[1..] + b;
      CountTrueConcat(a[1..], b);
    } else {
      assert a + b == b;
    }
  }

  /** Setting one flag changes the count by the difference it makes. */
  lemma {:induction false} CountTrueUpdate(flags: seq<bool>, i: nat, b: bool)
    requires i < |flags|
    ensures CountTrue(flags[i := b]) == CountTrue(flags) - (if flags[i] then 1 else 0) + (if b then 1 else 0)
  {
    if i > 0 {
      assert flags[i := b][1..] == flags[1..][i - 1 := b];
      CountTrueUpdate(flags[1..], i - 1, b);
    } else {
      assert flags[i := b][1..] == flags[1..];
    }
  }

  /** No flag is true exactly when the count is 0; all are exactly when it is the number of flags. */
  lemma {:induction false} CountTrueExtremes(flags: seq<bool>)
    ensures CountTrue(flags) == 0 <==> (forall i :: 0 <= i < |flags| ==> !flags[i])
    ensures CountTrue(flags) == |flags| <==> (forall i :: 0 <= i < |flags| ==> flags[i])
  {
    if flags != [] {
      CountTrueExtremes(flags[1..]);
      assert forall i :: 1 <= i < |flags| ==> flags[i] == flags[1..][i - 1];
    }
  }

  /**
   * For a row whose counter is the number of its true flags, the tristate value
   * `evaluate` gives is UNSELECTED when no band is selected (also when there are
   * none), SELECTED when there are bands and all are selected, MIXED otherwise.
   */
  lemma StateOfCountedRow(flags: seq<bool>)
    ensures StateFor(CountTrue(flags), |flags|) == Unselected <==> (forall i :: 0 <= i < |flags| ==> !flags[i])
    ensures StateFor(CountTrue(flags), |flags|) == Selected <==>
              (|flags| > 0 && forall i :: 0 <= i < |flags| ==> flags[i])
    ensures StateFor(CountTrue(flags), |flags|) == Mixed <==>
              ((exists i :: 0 <= i < |flags| && flags[i]) && (exists i :: 0 <= i < |flags| && !flags[i]))
  {
    CountTrueExtremes(flags);
  }

  /**
   * Moving the counter by one without the flag flipping (setting a flag to the
   * value it already has) leaves it one away from the number of true flags.
   */
  lemma CountDriftsWithoutFlip(flags: seq<bool>, i: nat, selected: bool)
    requires i < |flags| && flags[i] == selected
    ensures CountTrue(flags) + (if selected then 1 else -1) != CountTrue(flags[i := selected])
  {
    CountTrueUpdate(flags, i, selected);
  }

  /** A flip keeps the counter equal to the number of true flags. */
  lemma CountFollowsFlip(flags: seq<bool>, i: nat, selected: bool)
    requires i < |flags| && flags[i] != selected
    ensures CountTrue(flags) + (if selected then 1 else -1) == CountTrue(flags[i := selected])
  {
    CountTrueUpdate(flags, i, selected);
  }

  /** The band flags a row gets when its band table is built: selected only if the spectrum is too. */
  function ChildSelections(s: DisplayableSpectrum): (flags: seq<bool>)
    ensures |flags| == |s.bandSelected|
    ensures forall i :: 0 <= i < |flags| ==> flags[i] == (s.bandSelected[i] && s.selected)
  {
    seq(|s.bandSelected|, i requires 0 <= i < |s.bandSelected| => s.bandSelected[i] && s.selected)
  }

  /**
   * Building the band table of a selected spectrum whose row was counted from
   * the same flags doubles the row's flags and its count, and the evaluated
   * state stays as it was.
   */
  lemma {:induction false} ExpandedSelectedRowEvaluatesAlike(s: DisplayableSpectrum)
    requires s.selected
    ensures ChildSelections(s) == s.bandSelected
    ensures StateFor(CountTrue(s.bandSelected) + CountTrue(ChildSelections(s)), |s.bandSelected + ChildSelections(s)|)
            == StateFor(CountTrue(s.bandSelected), |s.bandSelected|)
  {
    assert ChildSelections(s) == s.bandSelected;
  }

  /**
   * For a spectrum that is not selected the table's flags are all false: a row
   * whose bands were all selected then evaluates to MIXED.
   */
  lemma {:induction false} ExpandedUnselectedRowEvaluatesMixed(s: DisplayableSpectrum)
    requires !s.selected && |s.bandSelected| > 0
    requires forall i :: 0 <= i < |s.bandSelected| ==> s.bandSelected[i]
    ensures CountTrue(ChildSelections(s)) == 0
    ensures StateFor(CountTrue(s.bandSelected), |s.bandSelected|) == Selected
    ensures StateFor(CountTrue(s.bandSelected) + CountTrue(ChildSelections(s)), |s.bandSelected + ChildSelections(s)|) == Mixed
  {
    CountTrueExtremes(ChildSelections(s));
    CountTrueExtremes(s.bandSelected);
  }

  /**
   * The line style or symbol `addRow` gives a spectrum: its own, else the
   * predefined styles in turn by row number.
   */
  function DefaultStyle<T>(current: Option<T>, rowCount: nat, styles: seq<T>): (s: T)
    requires |styles| > 0
    ensures current.Some? ==> s == current.value
    ensures current.None? ==> s == styles[rowCount % |styles|]
  {
    if current.Some? then current.value else styles[rowCount % |styles|]
  }

  /** The default styles repeat with the length of the style list. */
  lemma DefaultStylesCycle<T>(rowCount: nat, styles: seq<T>)
    requires |styles| > 0
    ensures DefaultStyle(None, rowCount + |styles|, styles) == DefaultStyle(None, rowCount, styles)
  {
    ModuloShift(rowCount, |styles|);
  }

  /** With distinct styles, rows without a style that are fewer than the styles apart get different defaults. */
  lemma DefaultStylesDistinct<T>(i: nat, j: nat, styles: seq<T>)
    requires |styles| > 0 && i < j < i + |styles|
    requires forall a, b :: 0 <= a < b < |styles| ==> styles[a] != styles[b]
    ensures DefaultStyle(None, i, styles) != DefaultStyle(None, j, styles)
  {
    ModuloDistinct(i, j, |styles|);
  }

  /** Euclidean division leaves the remainder of any such decomposition. */
  lemma ModUnique(n: int, k: int, q: int, r: int)
    requires k > 0 && 0 <= r < k && n == q * k + r
    ensures n % k == r
  {
    var q', r' := n / k, n % k;
    assert n == q' * k + r';
    var d := q - q';
    assert d * k == r' - r by {
      assert q * k - q' * k == (q - q') * k;
    }
  }

  lemma ModuloShift(n: nat, k: nat)
    requires k > 0
    ensures (n + k) % k == n % k
  {
    ModUnique(n + k, k, n / k + 1, n % k);
  }

  lemma ModuloDistinct(i: nat, j: nat, k: nat)
    requires k > 0 && i < j < i + k
    ensures i % k != j % k
  {
    var d := j / k - i / k;
    assert j - i == d * k + (j % k - i % k) by {
      assert j / k * k - i / k * k == d * k;
    }
  }

  /** `SelectionAdmin`: three parallel lists, one entry per spectrum row. */
  class SelectionAdmin {
    var bandSelectionStates: seq<seq<bool>>
    var numbersOfSelectedBands: seq<int>
    var currentStates: seq<TriState>

    ghost predicate Valid()
      reads this
    {
      |bandSelectionStates| == |numbersOfSelectedBands| == |currentStates|
    }

    function Rows(): nat
      reads this
    {
      |currentStates|
    }

    /** The row's counter is the number of its true flags. */
    ghost predicate Counted(row: nat)
      reads this
      requires Valid() && row < Rows()
    {
      numbersOfSelectedBands[row] == CountTrue(bandSelectionStates[row])
    }

    /** The row's tristate value is what `evaluate` would give now. */
    ghost predicate Evaluated(row: nat)
      reads this
      requires Valid() && row < Rows()
    {
      currentStates[row] == StateFor(numbersOfSelectedBands[row], |bandSelectionStates[row]|)
    }

    constructor ()
      ensures Valid() && Rows() == 0
      ensures bandSelectionStates == [] && numbersOfSelectedBands == [] && currentStates == []
    {
      bandSelectionStates := [];
      numbersOfSelectedBands := [];
      currentStates := [];
    }

    /**
     * `addSpectrumSelections`: appends one row holding the spectrum's band
     * flags, their count and the evaluated state; existing rows are unchanged.
     */
    method AddSpectrumSelections(spectrum: DisplayableSpectrum)
      requires Valid()
      modifies this
      ensures Valid() && Rows() == old(Rows()) + 1
      ensures bandSelectionStates == old(bandSelectionStates) + [spectrum.bandSelected]
      ensures numbersOfSelectedBands == old(numbersOfSelectedBands) + [CountTrue(spectrum.bandSelected)]
      ensures currentStates == old(currentStates)
                               + [StateFor(CountTrue(spectrum.bandSelected), |spectrum.bandSelected|)]
      ensures Counted(Rows() - 1) && Evaluated(Rows() - 1)
    {
      var selected: seq<bool> := [];
      var numberOfSelectedBands := 0;
      for i := 0 to |spectrum.bandSelected|
        modifies {}
        invariant selected == spectrum.bandSelected[..i]
        invariant numberOfSelectedBands == CountTrue(selected)
      {
        var bandSelected := spectrum.bandSelected[i];
        CountTrueAppend(selected, bandSelected);
        assert spectrum.bandSelected[..i + 1] == spectrum.bandSelected[..i] + [bandSelected];
        selected := selected + [bandSelected];
        if bandSelected {
          numberOfSelectedBands := numberOfSelectedBands + 1;
        }
      }
      assert selected == spectrum.bandSelected;
      bandSelectionStates := bandSelectionStates + [selected];
      numbersOfSelectedBands := numbersOfSelectedBands + [numberOfSelectedBands];
      ghost var states := currentStates;
      ghost var evaluated := StateFor(numberOfSelectedBands, |selected|);
      currentStates := currentStates + [Unselected];  // `addSpectrumSelections` adds -1 here; `Evaluate` overwrites it at once
      Evaluate(|bandSelectionStates| - 1);
      assert (states + [Unselected])[|states| := evaluated] == states + [evaluated];
    }

    /** `addBand`: appends one flag to a row, counting it if it is true; the tristate value is not re-evaluated. */
    method AddBand(index: nat, selected: bool)
      requires Valid() && index < Rows()
      modifies this
      ensures Valid()
      ensures bandSelectionStates == old(bandSelectionStates)[index := old(bandSelectionStates[index]) + [selected]]
      ensures numbersOfSelectedBands == old(numbersOfSelectedBands)[index := old(numbersOfSelectedBands[index]) + (if selected then 1 else 0)]
      ensures currentStates == old(currentStates)
      ensures old(Counted(index)) ==> Counted(index)
    {
      CountTrueAppend(bandSelectionStates[index], selected);
      bandSelectionStates := bandSelectionStates[index := bandSelectionStates[index] + [selected]];
      if selected {
        numbersOfSelectedBands := numbersOfSelectedBands[index := numbersOfSelectedBands[index] + 1];
      }
    }

    /** `areNoBandsSelected` */
    function AreNoBandsSelected(row: nat): (b: bool)
      reads this
      requires Valid() && row < Rows()
      ensures b <==> numbersOfSelectedBands[row] == 0
      ensures Counted(row) ==> (b <==> forall i :: 0 <= i < |bandSelectionStates[row]| ==> !bandSelectionStates[row][i])
    {
      CountTrueExtremes(bandSelectionStates[row]);
      numbersOfSelectedBands[row] == 0
    }

    /** `areAllBandsSelected` */
    function AreAllBandsSelected(row: nat): (b: bool)
      reads this
      requires Valid() && row < Rows()
      ensures b <==> numbersOfSelectedBands[row] == |bandSelectionStates[row]|
      ensures Counted(row) ==> (b <==> forall i :: 0 <= i < |bandSelectionStates[row]| ==> bandSelectionStates[row][i])
    {
      CountTrueExtremes(bandSelectionStates[row]);
      numbersOfSelectedBands[row] == |bandSelectionStates[row]|
    }

    /**
     * `isBandSelected`: every band under SELECTED, none under UNSELECTED, the
     * stored flag under MIXED (the only case that reads the flag).
     */
    function IsBandSelected(row: nat, i: nat): (b: bool)
      reads this
      requires Valid() && row < Rows()
      requires currentStates[row] == Mixed ==> i < |bandSelectionStates[row]|
      ensures currentStates[row] == Selected ==> b
      ensures currentStates[row] == Unselected ==> !b
      ensures currentStates[row] == Mixed ==> b == bandSelectionStates[row][i]
      ensures Counted(row) && Evaluated(row) && i < |bandSelectionStates[row]| ==> b == bandSelectionStates[row][i]
    {
      StateOfCountedRow(bandSelectionStates[row]);
      if currentStates[row] == Mixed then bandSelectionStates[row][i]
      else currentStates[row] == Selected
    }

    /**
     * The flags `isBandSelected` reports for the first `n` bands of a row: the
     * stored flags under MIXED, all true under SELECTED, all false under
     * UNSELECTED (`ShownBandsAgree` ties it to `IsBandSelected`).
     */
    function ShownBands(row: nat, n: nat): (flags: seq<bool>)
      reads this
      requires Valid() && row < Rows() && n <= |bandSelectionStates[row]|
      ensures |flags| == n
      ensures currentStates[row] == Mixed ==> flags == bandSelectionStates[row][..n]
      ensures currentStates[row] == Selected ==> forall i :: 0 <= i < n ==> flags[i]
      ensures currentStates[row] == Unselected ==> forall i :: 0 <= i < n ==> !flags[i]
    {
      if currentStates[row] == Mixed then bandSelectionStates[row][..n]
      else var on := currentStates[row] == Selected; seq(n, _ => on)
    }

    lemma ShownBandsAgree(row: nat, n: nat, i: nat)
      requires Valid() && row < Rows() && n <= |bandSelectionStates[row]| && i < n
      ensures ShownBands(row, n)[i] == IsBandSelected(row, i)
    {
    }

    /**
     * `evaluate`: sets the row's tristate value from its counter: 0 gives
     * UNSELECTED, the number of flags SELECTED, anything else MIXED.
     */
    method Evaluate(index: nat)
      requires Valid() && index < Rows()
      modifies this
      ensures Valid() && Rows() == old(Rows()) && Evaluated(index)
      ensures bandSelectionStates == old(bandSelectionStates) && numbersOfSelectedBands == old(numbersOfSelectedBands)
      ensures currentStates == old(currentStates)[index := StateFor(numbersOfSelectedBands[index], |bandSelectionStates[index]|)]
    {
      var numberOfBands := numbersOfSelectedBands[index];
      if numberOfBands == 0 {
        currentStates := currentStates[index := Unselected];
      } else if numberOfBands == |bandSelectionStates[index]| {
        currentStates := currentStates[index := Selected];
      } else {
        currentStates := currentStates[index := Mixed];
      }
    }

    /** `getState`: the stored value, not re-evaluated. */
    function GetState(index: nat): (s: TriState)
      reads this
      requires Valid() && index < Rows()
      ensures s == currentStates[index]
      ensures Counted(index) && Evaluated(index) ==>
                (s == Selected <==> |bandSelectionStates[index]| > 0 && AreAllBandsSelected(index))
    {
      currentStates[index]
    }

    /** `isSpectrumSelected`: the state is SELECTED or MIXED. */
    function IsSpectrumSelected(row: nat): (b: bool)
      reads this
      requires Valid() && row < Rows()
      ensures b <==> currentStates[row] != Unselected
      ensures Counted(row) && Evaluated(row) ==>
                (b <==> exists i :: 0 <= i < |bandSelectionStates[row]| && bandSelectionStates[row][i])
    {
      StateOfCountedRow(bandSelectionStates[row]);
      currentStates[row] != Unselected
    }

    /** `updateNumbersOfSelectedBands`: +1 for a selection, -1 otherwise. */
    method UpdateNumbersOfSelectedBands(selected: bool, row: nat)
      requires Valid() && row < Rows()
      modifies this
      ensures Valid()
      ensures numbersOfSelectedBands == old(numbersOfSelectedBands)[row := old(numbersOfSelectedBands[row]) + (if selected then 1 else -1)]
      ensures bandSelectionStates == old(bandSelectionStates) && currentStates == old(currentStates)
    {
      if selected {
        numbersOfSelectedBands := numbersOfSelectedBands[row := numbersOfSelectedBands[row] + 1];
      } else {
        numbersOfSelectedBands := numbersOfSelectedBands[row := numbersOfSelectedBands[row] - 1];
      }
    }

    /**
     * `updateBandSelections(row, bandRow, selected)`: sets one flag, moves the
     * counter by one in the direction of `selected` and re-evaluates the row.
     * The counter stays the number of true flags only if the flag really flips.
     */
    method UpdateBandSelection(row: nat, bandRow: nat, selected: bool)
      requires Valid() && row < Rows() && bandRow < |bandSelectionStates[row]|
      modifies this
      ensures Valid() && Rows() == old(Rows()) && Evaluated(row)
      ensures bandSelectionStates == old(bandSelectionStates)[row := old(bandSelectionStates[row])[bandRow := selected]]
      ensures numbersOfSelectedBands == old(numbersOfSelectedBands)[row := old(numbersOfSelectedBands[row]) + (if selected then 1 else -1)]
      ensures currentStates == old(currentStates)[row := StateFor(numbersOfSelectedBands[row], |bandSelectionStates[row]|)]
      ensures old(Counted(row)) ==> (Counted(row) <==> old(bandSelectionStates[row][bandRow]) != selected)
    {
      CountTrueUpdate(bandSelectionStates[row], bandRow, selected);
      bandSelectionStates := bandSelectionStates[row := bandSelectionStates[row][bandRow := selected]];
      UpdateNumbersOfSelectedBands(selected, row);
      Evaluate(row);
    }

    /** The tristate value a forced state becomes: MIXED is resolved when no band, or every band, is selected. */
    function Normalized(row: nat, newState: TriState): (s: TriState)
      reads this
      requires Valid() && row < Rows()
      ensures newState != Mixed ==> s == newState
      ensures newState == Mixed ==> s == StateFor(numbersOfSelectedBands[row], |bandSelectionStates[row]|)
    {
      if newState == Mixed then
        if AreNoBandsSelected(row) then Unselected
        else if AreAllBandsSelected(row) then Selected
        else Mixed
      else newState
    }

    /**
     * `updateBandSelections(row, newState)`: stores the forced state (MIXED
     * resolved as `Normalized` says); flags and counters are untouched.
     */
    method UpdateSpectrumSelection(row: nat, newState: TriState)
      requires Valid() && row < Rows()
      modifies this
      ensures Valid()
      ensures bandSelectionStates == old(bandSelectionStates) && numbersOfSelectedBands == old(numbersOfSelectedBands)
      ensures currentStates == old(currentStates)[row := old(Normalized(row, newState))]
    {
      var state := newState;
      if state == Mixed {
        if AreNoBandsSelected(row) {
          state := Unselected;
        } else if AreAllBandsSelected(row) {
          state := Selected;
        }
      }
      currentStates := currentStates[row := state];
    }
  }

  /** The spectrum as `addRow` leaves it: a line style and a symbol are filled in where missing. */
  function Styled(spectrum: DisplayableSpectrum, rowCount: nat, strokes: seq<Stroke>, shapes: seq<Shape>): (r: DisplayableSpectrum)
    requires |strokes| > 0 && |shapes| > 0
    ensures r.lineStyle == Some(DefaultStyle(spectrum.lineStyle, rowCount, strokes))
    ensures r.symbol == Some(DefaultStyle(spectrum.symbol, rowCount, shapes))
    ensures r.name == spectrum.name && r.bandSelected == spectrum.bandSelected && r.selected == spectrum.selected
  {
    spectrum.(lineStyle := Some(DefaultStyle(spectrum.lineStyle, rowCount, strokes)),
              symbol := Some(DefaultStyle(spectrum.symbol, rowCount, shapes)))
  }

  /**
   * One admin row per spectrum, holding at least the spectrum's bands, and a
   * band table only for existing rows, with one cell per band.
   */
  ghost predicate Consistent(spectra: seq<DisplayableSpectrum>, flags: seq<seq<bool>>, tables: map<nat, seq<bool>>)
  {
    && |spectra| == |flags|
    && (forall r :: 0 <= r < |spectra| ==> |spectra[r].bandSelected| <= |flags[r]|)
    && (forall r :: r in tables ==> r < |spectra| && |tables[r]| == |spectra[r].bandSelected|)
  }

  lemma ConsistentSetSpectrum(spectra: seq<DisplayableSpectrum>, flags: seq<seq<bool>>, tables: map<nat, seq<bool>>,
                              row: nat, t: DisplayableSpectrum)
    requires Consistent(spectra, flags, tables) && row < |spectra| && |t.bandSelected| == |spectra[row].bandSelected|
    ensures Consistent(spectra[row := t], flags, tables)
  {
  }

  lemma ConsistentSetTable(spectra: seq<DisplayableSpectrum>, flags: seq<seq<bool>>, tables: map<nat, seq<bool>>,
                           row: nat, cells: seq<bool>)
    requires Consistent(spectra, flags, tables) && row < |spectra| && |cells| == |spectra[row].bandSelected|
    ensures Consistent(spectra, flags, tables[row := cells])
  {
  }

  lemma ConsistentSetFlags(spectra: seq<DisplayableSpectrum>, flags: seq<seq<bool>>, tables: map<nat, seq<bool>>,
                           row: nat, f: seq<bool>)
    requires Consistent(spectra, flags, tables) && row < |spectra| && |flags[row]| <= |f|
    ensures Consistent(spectra, flags[row := f], tables)
  {
  }

  lemma ConsistentAppend(spectra: seq<DisplayableSpectrum>, flags: seq<seq<bool>>, tables: map<nat, seq<bool>>,
                         s: DisplayableSpectrum)
    requires Consistent(spectra, flags, tables)
    ensures Consistent(spectra + [s], flags + [s.bandSelected], tables)
  {
  }

  /**
   * `SpectrumTableModel`, reduced to its selection handling: the spectra, the
   * stored tristate column, the selection column of each band table built so
   * far (by row), the admin and the `selectionChangeLock` flag.
   */
  class SpectrumTableModel {
    const admin: SelectionAdmin
    const strokes: seq<Stroke>
    const shapes: seq<Shape>
    var selectionChangeLock: bool
    var spectra: seq<DisplayableSpectrum>
    var selectionColumn: seq<TriState>
    var bandTables: map<nat, seq<bool>>

    ghost predicate Valid()
      reads this, admin
    {
      && admin.Valid()
      && |strokes| > 0 && |shapes| > 0
      && admin.Rows() == |selectionColumn|
      && Consistent(spectra, admin.bandSelectionStates, bandTables)
    }

    /** The stored tristate column agrees with the admin's states. */
    ghost predicate Mirrored()
      reads this, admin
      requires Valid()
    {
      forall r :: 0 <= r < |selectionColumn| ==> selectionColumn[r] == admin.currentStates[r]
    }

    /** The constructor adds every spectrum as a row, in order. */
    constructor (allSpectra: seq<DisplayableSpectrum>, strokes: seq<Stroke>, shapes: seq<Shape>)
      requires |strokes| > 0 && |shapes| > 0
      ensures Valid() && fresh(admin) && Mirrored()
      ensures !selectionChangeLock && bandTables == map[]
      ensures |spectra| == |allSpectra|
      ensures forall r :: 0 <= r < |allSpectra| ==>
                && spectra[r] == Styled(allSpectra[r], r, strokes, shapes)
                && admin.bandSelectionStates[r] == allSpectra[r].bandSelected
                && admin.Counted(r) && admin.Evaluated(r)
    {
      admin := new SelectionAdmin();
      this.strokes := strokes;
      this.shapes := shapes;
      selectionChangeLock := false;
      spectra := [];
      selectionColumn := [];
      bandTables := map[];
      new;
      for i := 0 to |allSpectra|
        invariant Valid() && Mirrored() && fresh(admin)
        invariant !selectionChangeLock && bandTables == map[]
        invariant |spectra| == i
        invariant forall r :: 0 <= r < i ==>
                    && spectra[r] == Styled(allSpectra[r], r, strokes, shapes)
                    && admin.bandSelectionStates[r] == allSpectra[r].bandSelected
                    && admin.Counted(r) && admin.Evaluated(r)
      {
        AddRow(allSpectra[i]);
      }
    }

    /**
     * `addRow`: fills in the default line style and symbol for the new row
     * number, appends the admin row and stores its state in the column.
     */
    method AddRow(spectrum: DisplayableSpectrum)
      requires Valid()
      modifies this, admin
      ensures Valid()
      ensures selectionChangeLock == old(selectionChangeLock) && bandTables == old(bandTables)
      ensures spectra == old(spectra) + [Styled(spectrum, old(|spectra|), strokes, shapes)]
      ensures admin.bandSelectionStates == old(admin.bandSelectionStates) + [spectrum.bandSelected]
      ensures admin.numbersOfSelectedBands == old(admin.numbersOfSelectedBands) + [CountTrue(spectrum.bandSelected)]
      ensures admin.currentStates == old(admin.currentStates)
                                     + [StateFor(CountTrue(spectrum.bandSelected), |spectrum.bandSelected|)]
      ensures selectionColumn == old(selectionColumn) + [admin.currentStates[old(|spectra|)]]
      ensures old(Mirrored()) ==> Mirrored()
    {
      var s := spectrum;
      var rowCount := |selectionColumn|;
      if s.lineStyle.None? {
        s := s.(lineStyle := Some(strokes[rowCount % |strokes|]));
      }
      if s.symbol.None? {
        s := s.(symbol := Some(shapes[rowCount % |shapes|]));
      }
      ConsistentAppend(spectra, admin.bandSelectionStates, bandTables, s);
      admin.AddSpectrumSelections(s);
      selectionColumn := selectionColumn + [admin.GetState(rowCount)];
      spectra := spectra + [s];
    }

    /**
     * `setValueAt` on the selection column: with the lock free the edit goes
     * through `SelectionForced`, which yields the value to store; with the lock
     * held the value is only stored.
     */
    method SetSelectionValue(row: nat, value: TriState)
      requires Valid() && row < |spectra|
      modifies this, admin
      ensures Valid() && selectionChangeLock == old(selectionChangeLock)
      ensures old(selectionChangeLock) ==>
                && unchanged(admin)
                && spectra == old(spectra) && bandTables == old(bandTables)
                && selectionColumn == old(selectionColumn)[row := value]
      ensures !old(selectionChangeLock) ==>
                && admin.bandSelectionStates == old(admin.bandSelectionStates)
                && admin.numbersOfSelectedBands == old(admin.numbersOfSelectedBands)
                && admin.currentStates == old(admin.currentStates)[row := old(admin.Normalized(row, value))]
                && selectionColumn == old(selectionColumn)[row := admin.currentStates[row]]
                && spectra == old(spectra)[row := old(spectra[row]).(
                     bandSelected := admin.ShownBands(row, |old(spectra[row].bandSelected)|),
                     selected := admin.IsSpectrumSelected(row))]
                && bandTables == (if row in old(bandTables)
                                  then old(bandTables)[row := admin.ShownBands(row, |old(spectra[row].bandSelected)|)]
                                  else old(bandTables))
      ensures !old(selectionChangeLock) && old(Mirrored()) ==> Mirrored()
    {
      var value := value;
      if !selectionChangeLock {
        value := SelectionForced(row, value);
      }
      selectionColumn := selectionColumn[row := value];
    }

    /**
     * The guarded block of `setValueAt`: takes the lock, resolves MIXED, forces
     * the admin state, writes the reported band flags to the spectrum (and its
     * band table), sets the spectrum's selection, frees the lock and returns
     * the admin's state for the row.
     */
    method SelectionForced(row: nat, value: TriState) returns (state: TriState)
      requires Valid() && row < |spectra| && !selectionChangeLock
      modifies this, admin
      ensures Valid() && !selectionChangeLock && selectionColumn == old(selectionColumn)
      ensures admin.bandSelectionStates == old(admin.bandSelectionStates)
      ensures admin.numbersOfSelectedBands == old(admin.numbersOfSelectedBands)
      ensures admin.currentStates == old(admin.currentStates)[row := old(admin.Normalized(row, value))]
      ensures state == admin.currentStates[row]
      ensures spectra == old(spectra)[row := old(spectra[row]).(
                bandSelected := admin.ShownBands(row, |old(spectra[row].bandSelected)|),
                selected := admin.IsSpectrumSelected(row))]
      ensures bandTables == (if row in old(bandTables)
                             then old(bandTables)[row := admin.ShownBands(row, |old(spectra[row].bandSelected)|)]
                             else old(bandTables))
    {
      selectionChangeLock := true;
      var value := value;
      if value == Mixed {
        if admin.AreNoBandsSelected(row) {
          value := Unselected;
        } else if admin.AreAllBandsSelected(row) {
          value := Selected;
        }
      }
      admin.UpdateSpectrumSelection(row, value);
      state := admin.GetState(row);
      UpdateBandsTable(row);
      ConsistentSetSpectrum(spectra, admin.bandSelectionStates, bandTables, row,
                            spectra[row].(selected := admin.IsSpectrumSelected(row)));
      spectra := spectra[row := spectra[row].(selected := admin.IsSpectrumSelected(row))];
      selectionChangeLock := false;
    }

    /**
     * `updateBandsTable`, called with the lock held: each band of the row gets
     * the flag `isBandSelected` reports. When the row has a band table the flag
     * goes into its cell, and the table's listener, seeing the lock held, only
     * copies it to the spectrum (as `BandSelectionEdited` states); otherwise it
     * is set on the spectrum directly. Either way both end up equal.
     */
    method UpdateBandsTable(row: nat)
      requires Valid() && row < |spectra| && selectionChangeLock
      modifies this
      ensures Valid() && selectionChangeLock
      ensures selectionColumn == old(selectionColumn)
      ensures spectra == old(spectra)[row := old(spectra[row]).(
                bandSelected := admin.ShownBands(row, |old(spectra[row].bandSelected)|))]
      ensures bandTables == (if row in old(bandTables)
                             then old(bandTables)[row := admin.ShownBands(row, |old(spectra[row].bandSelected)|)]
                             else old(bandTables))
    {
      var flags := spectra[row].bandSelected;
      ghost var shown := admin.ShownBands(row, |flags|);
      for i := 0 to |flags|
        modifies {}
        invariant |flags| == |shown|
        invariant forall k :: 0 <= k < i ==> flags[k] == shown[k]
      {
        admin.ShownBandsAgree(row, |flags|, i);
        flags := flags[i := admin.IsBandSelected(row, i)];
      }
      assert flags == shown;
      if row in bandTables {
        ConsistentSetTable(spectra, admin.bandSelectionStates, bandTables, row, flags);
        bandTables := bandTables[row := flags];
      }
      ConsistentSetSpectrum(spectra, admin.bandSelectionStates, bandTables, row, spectra[row].(bandSelected := flags));
      spectra := spectra[row := spectra[row].(bandSelected := flags)];
    }

    /**
     * A band table cell of the selection column set to `selected`, followed by
     * the table's listener: the spectrum's band flag is set and, with the lock
     * free, the change is passed on as `BandSelectionPropagated` states; with
     * the lock held nothing else changes.
     */
    method BandSelectionEdited(row: nat, bandRow: nat, selected: bool)
      requires Valid() && row in bandTables && bandRow < |bandTables[row]|
      modifies this, admin
      ensures Valid() && selectionChangeLock == old(selectionChangeLock)
      ensures bandTables == old(bandTables)[row := old(bandTables[row])[bandRow := selected]]
      ensures old(selectionChangeLock) ==>
                && unchanged(admin) && selectionColumn == old(selectionColumn)
                && spectra == old(spectra)[row := old(spectra[row]).(bandSelected := old(spectra[row].bandSelected)[bandRow := selected])]
      ensures !old(selectionChangeLock) ==>
                && admin.bandSelectionStates == old(admin.bandSelectionStates)[row := old(admin.bandSelectionStates[row])[bandRow := selected]]
                && admin.numbersOfSelectedBands == old(admin.numbersOfSelectedBands)[row := old(admin.numbersOfSelectedBands[row]) + (if selected then 1 else -1)]
                && admin.currentStates == old(admin.currentStates)[row := StateFor(admin.numbersOfSelectedBands[row], |admin.bandSelectionStates[row]|)]
                && selectionColumn == old(selectionColumn)[row := admin.currentStates[row]]
                && spectra == old(spectra)[row := old(spectra[row]).(
                     bandSelected := old(spectra[row].bandSelected)[bandRow := selected],
                     selected := admin.IsSpectrumSelected(row))]
      ensures !old(selectionChangeLock) && old(Mirrored()) ==> Mirrored()
    {
      ConsistentSetTable(spectra, admin.bandSelectionStates, bandTables, row, bandTables[row][bandRow := selected]);
      bandTables := bandTables[row := bandTables[row][bandRow := selected]];
      ConsistentSetSpectrum(spectra, admin.bandSelectionStates, bandTables, row,
                            spectra[row].(bandSelected := spectra[row].bandSelected[bandRow := selected]));
      spectra := spectra[row := spectra[row].(bandSelected := spectra[row].bandSelected[bandRow := selected])];
      if !selectionChangeLock {
        BandSelectionPropagated(row, bandRow, selected);
      }
    }

    /**
     * The listener's guarded block: takes the lock, updates the admin's flag,
     * stores the row's state through the selection column (whose edit the held
     * lock keeps from reaching the admin), sets the spectrum's selection and
     * frees the lock.
     */
    method BandSelectionPropagated(row: nat, bandRow: nat, selected: bool)
      requires Valid() && !selectionChangeLock && row < |spectra| && bandRow < |spectra[row].bandSelected|
      modifies this, admin
      ensures Valid() && !selectionChangeLock && bandTables == old(bandTables)
      ensures admin.bandSelectionStates == old(admin.bandSelectionStates)[row := old(admin.bandSelectionStates[row])[bandRow := selected]]
      ensures admin.numbersOfSelectedBands == old(admin.numbersOfSelectedBands)[row := old(admin.numbersOfSelectedBands[row]) + (if selected then 1 else -1)]
      ensures admin.currentStates == old(admin.currentStates)[row := StateFor(admin.numbersOfSelectedBands[row], |admin.bandSelectionStates[row]|)]
      ensures selectionColumn == old(selectionColumn)[row := admin.currentStates[row]]
      ensures spectra == old(spectra)[row := old(spectra[row]).(selected := admin.IsSpectrumSelected(row))]
      ensures old(Mirrored()) ==> Mirrored()
    {
      selectionChangeLock := true;
      ConsistentSetFlags(spectra, admin.bandSelectionStates, bandTables, row,
                         admin.bandSelectionStates[row][bandRow := selected]);
      admin.UpdateBandSelection(row, bandRow, selected);
      SetSelectionValue(row, admin.GetState(row));
      ConsistentSetSpectrum(spectra, admin.bandSelectionStates, bandTables, row,
                            spectra[row].(selected := admin.IsSpectrumSelected(row)));
      spectra := spectra[row := spectra[row].(selected := admin.IsSpectrumSelected(row))];
      selectionChangeLock := false;
    }

    /**
     * The band table of a row, as `getChildValueAt` builds it the first time:
     * each band's flag is its own selection and the spectrum's, and is appended
     * to the admin row as well. A row that already has a table is unchanged.
     */
    method ExpandRow(row: nat)
      requires Valid() && row < |spectra|
      modifies this, admin
      ensures Valid() && selectionChangeLock == old(selectionChangeLock)
      ensures spectra == old(spectra) && selectionColumn == old(selectionColumn)
      ensures row in old(bandTables) ==> unchanged(admin) && bandTables == old(bandTables)
      ensures row !in old(bandTables) ==>
                && bandTables == old(bandTables)[row := ChildSelections(spectra[row])]
                && admin.bandSelectionStates == old(admin.bandSelectionStates)[row := old(admin.bandSelectionStates[row]) + ChildSelections(spectra[row])]
                && admin.numbersOfSelectedBands == old(admin.numbersOfSelectedBands)[row := old(admin.numbersOfSelectedBands[row]) + CountTrue(ChildSelections(spectra[row]))]
                && admin.currentStates == old(admin.currentStates)
      ensures old(admin.Counted(row)) ==> admin.Counted(row)
      ensures old(Mirrored()) ==> Mirrored()
    {
      if row !in bandTables {
        var flags := ChildSelections(spectra[row]);
        ConsistentSetFlags(spectra, admin.bandSelectionStates, bandTables, row, admin.bandSelectionStates[row] + flags);
        AddBands(row, flags);
        ConsistentSetTable(spectra, admin.bandSelectionStates, bandTables, row, flags);
        bandTables := bandTables[row := flags];
      }
    }

    /** `getChildValueAt`'s loop: `addBand` for each flag in turn. */
    method AddBands(row: nat, flags: seq<bool>)
      requires admin.Valid() && row < admin.Rows()
      modifies admin
      ensures admin.Valid()
      ensures admin.bandSelectionStates == old(admin.bandSelectionStates)[row := old(admin.bandSelectionStates[row]) + flags]
      ensures admin.numbersOfSelectedBands == old(admin.numbersOfSelectedBands)[row := old(admin.numbersOfSelectedBands[row]) + CountTrue(flags)]
      ensures admin.currentStates == old(admin.currentStates)
      ensures old(admin.Counted(row)) ==> admin.Counted(row)
    {
      ghost var initial := admin.bandSelectionStates[row];
      ghost var count := admin.numbersOfSelectedBands[row];
      assert initial + flags[..0] == initial;
      for i := 0 to |flags|
        invariant admin.Valid() && admin.Rows() == old(admin.Rows())
        invariant forall r :: 0 <= r < admin.Rows() && r != row ==>
                    admin.bandSelectionStates[r] == old(admin.bandSelectionStates[r])
                    && admin.numbersOfSelectedBands[r] == old(admin.numbersOfSelectedBands[r])
        invariant admin.bandSelectionStates[row] == initial + flags[..i]
        invariant admin.numbersOfSelectedBands[row] == count + CountTrue(flags[..i])
        invariant admin.currentStates == old(admin.currentStates)
      {
        CountTrueAppend(flags[..i], flags[i]);
        assert flags[..i + 1] == flags[..i] + [flags[i]];
        admin.AddBand(row, flags[i]);
      }
      assert flags[..|flags|] == flags;
      CountTrueConcat(initial, flags);
    }
  }
}
