# Operator framework, parameter descriptors, spectrum selection and shapefile naming

This project models four pieces of a BEAM/SNAP code base in Dafny:

- The parameter descriptor factory of the graph processing framework (GPF).
  It turns an operator field and its `@Parameter` annotation into a
  `ValueDescriptor`. It instantiates the declared validator, DOM converter and
  converter when the annotation names one; copies the label, alias, item
  alias and format only when they are set, and the unit, description and
  flags whatever their value; falls back to the type's default converter;
  and compiles or parses the pattern, interval, value set and default value.
  Any failure becomes an error result.
  (`gpf_annotations.dfy`, module `GpfAnnotations`.)
- The `AbstractOperator` base class: its SPI, its context set by `initialize`,
  raster requests delegated to the context, and the default `computeBand` /
  `computeAllBands` that throw. (`gpf.dfy`, module `Gpf`.)
- The selection bookkeeping of the spectrum chooser dialog. `SelectionAdmin`
  keeps per spectrum row a list of band flags, a selected-band counter and a
  tristate value (UNSELECTED / SELECTED / MIXED). The table model keeps a
  tristate selection column and one band table per expanded row, and guards
  its updates with the `selectionChangeLock` flag.
  (`spectrum.dfy`, module `Spectrum`.)
- The file-name rule of the statistics shapefile writer: the output is
  `<name without a trailing .shp>.shp` in the input's directory, and the first
  feature's type is the schema. (`statistics_output.dfy`, module
  `StatisticsOutput`.)

Common `Option`, `Result` and `Outcome` types live in `wrappers.dfy`.

Library behaviour the code calls but does not define is a parameter of the
model. This covers regular expressions, `ValueRange`/`ValueSet` parsing,
converters, default-converter lookup, instantiation by reflection, the
operator context's raster service and the subclass's `initialize` hook. Each
such call may fail where the Java code would throw. The class-instantiation
outcome of each annotation slot is part of the input: the default marker
class, a class that can be instantiated, or one that throws.

Where the code differs from what one might expect:

- A `@Parameter` field of a type with no default converter is still accepted.
  A value set is then parsed with a null converter.
- A default value with no converter dereferences null. The model gives a
  `NullPointerException` there.
- Only `ConversionException` is rethrown as
  `IllegalArgumentException("field", e)`. Everything else passes through
  unchanged.
- `SelectionAdmin.addBand` appends to a row that already holds the spectrum's
  flags. Building a band table therefore doubles the row's flag list.
- Forcing a state through the selection column changes no band flag or
  counter in the admin. A later band edit that does not flip the admin's
  flag then moves the counter away from the number of true flags.

## Model

| member | source | states |
|---|---|---|
| GpfAnnotations.CreateValueDescriptorImpl | beam-gpf/src/main/java/org/esa/beam/framework/gpf/annotations/ParameterDescriptorFactory.java:36-112 | the result is exactly `DescriptorOf`: no descriptor for an unannotated operator field, a bare one for other unannotated fields, otherwise the first instantiation or constraint failure, or the fully set-up descriptor |
| GpfAnnotations.ApplyConstraints | beam-gpf/src/main/java/org/esa/beam/framework/gpf/annotations/ParameterDescriptorFactory.java:91-111 | fails exactly when a set pattern, interval, value set or default value fails to compile/parse (first one wins), with that error; otherwise returns the descriptor with those four fields and the format filled in |
| GpfAnnotations.CreateValueDescriptor | beam-gpf/src/main/java/org/esa/beam/framework/gpf/annotations/ParameterDescriptorFactory.java:28-34 | successes pass through; a `ConversionException` becomes `IllegalArgumentException("field", e)`, other errors pass unchanged; no `ConversionException` escapes |
| GpfAnnotations.GetOpType | beam-gpf/src/main/java/org/esa/beam/framework/gpf/annotations/ParameterDescriptorFactory.java:118-126 | fails iff the operator name is not registered, with `IllegalStateException("Operator SPI not found for operator [<name>]")`; otherwise gives the registered operator class |
| GpfAnnotations.IsSetIffPresentAndNonEmpty | beam-gpf/src/main/java/org/esa/beam/framework/gpf/annotations/ParameterDescriptorFactory.java:128-146 | a string or string array is set iff it is non-null and non-empty |
| GpfAnnotations.UnannotatedFields | beam-gpf/src/main/java/org/esa/beam/framework/gpf/annotations/ParameterDescriptorFactory.java:37-45 | without an annotation: no descriptor for an operator field, a name-and-type descriptor otherwise, never an error |
| GpfAnnotations.NoDescriptorOnlyForOperatorInternals | beam-gpf/src/main/java/org/esa/beam/framework/gpf/annotations/ParameterDescriptorFactory.java:37-41 | the null result occurs iff the field is declared in an operator class and has no annotation |
| GpfAnnotations.InstantiationFailures | beam-gpf/src/main/java/org/esa/beam/framework/gpf/annotations/ParameterDescriptorFactory.java:46-72 | a declared class that cannot be instantiated gives `ConversionException` with the validator / domConverter / converter message, checked in that order; the public entry turns it into `IllegalArgumentException("field", ...)` |
| GpfAnnotations.FailuresComeFromSteps | beam-gpf/src/main/java/org/esa/beam/framework/gpf/annotations/ParameterDescriptorFactory.java:46-110 | every failure comes from an annotated field and is an instantiation failure or the exact error of one of the four parsing steps |
| GpfAnnotations.ConverterResolved | beam-gpf/src/main/java/org/esa/beam/framework/gpf/annotations/ParameterDescriptorFactory.java:64-84 | the converter is the declared one if any, else the type's default; it is absent only when neither exists |
| GpfAnnotations.DefaultValueParsedWithConverter | beam-gpf/src/main/java/org/esa/beam/framework/gpf/annotations/ParameterDescriptorFactory.java:102-110 | on success the default value is the converter's parse of the text (and a converter exists), the value set is parsed with that converter; both absent when not given |
| GpfAnnotations.DefaultValueParseFailure | beam-gpf/src/main/java/org/esa/beam/framework/gpf/annotations/ParameterDescriptorFactory.java:107-110 | when everything else succeeds, a failing parse of the default value is the factory's error, rethrown as `IllegalArgumentException` if it is a `ConversionException` |
| GpfAnnotations.ConditionalFields | beam-gpf/src/main/java/org/esa/beam/framework/gpf/annotations/ParameterDescriptorFactory.java:73-81 | display name, alias, item alias, pattern, value range and format are present iff the annotation sets them, with the given or compiled value |
| GpfAnnotations.UnconditionalFields | beam-gpf/src/main/java/org/esa/beam/framework/gpf/annotations/ParameterDescriptorFactory.java:46-90 | name, type, items-inlined, unit, description, not-null and not-empty are copied whatever their value; the validator and DOM converter are the instances created when the annotation names a class other than the marker interface, and absent otherwise |
| GpfAnnotations.EmptyTextIsUnset | beam-gpf/src/main/java/org/esa/beam/framework/gpf/annotations/ParameterDescriptorFactory.java:140-146 | label, alias, item alias, pattern, interval, format, value set and default value all empty give the same result as all absent; unit and description are not included, since they are copied whatever their value |
| GpfAnnotations.EmptyLabelIsUnset | beam-gpf/src/main/java/org/esa/beam/framework/gpf/annotations/ParameterDescriptorFactory.java:73-75 | an empty label gives the same result as an absent one: no display name |
| GpfAnnotations.EmptyAliasIsUnset | beam-gpf/src/main/java/org/esa/beam/framework/gpf/annotations/ParameterDescriptorFactory.java:76-78 | an empty alias gives the same result as an absent one: no alias |
| GpfAnnotations.EmptyItemAliasIsUnset | beam-gpf/src/main/java/org/esa/beam/framework/gpf/annotations/ParameterDescriptorFactory.java:79-81 | an empty item alias gives the same result as an absent one: no item alias |
| GpfAnnotations.EmptyPatternIsUnset | beam-gpf/src/main/java/org/esa/beam/framework/gpf/annotations/ParameterDescriptorFactory.java:91-94 | an empty pattern gives the same result as an absent one: not compiled, so it cannot fail, and no pattern |
| GpfAnnotations.EmptyIntervalIsUnset | beam-gpf/src/main/java/org/esa/beam/framework/gpf/annotations/ParameterDescriptorFactory.java:95-98 | an empty interval gives the same result as an absent one: not parsed, and no value range |
| GpfAnnotations.EmptyFormatIsUnset | beam-gpf/src/main/java/org/esa/beam/framework/gpf/annotations/ParameterDescriptorFactory.java:99-101 | an empty format gives the same result as an absent one: no format |
| GpfAnnotations.EmptyValueSetIsUnset | beam-gpf/src/main/java/org/esa/beam/framework/gpf/annotations/ParameterDescriptorFactory.java:102-106 | an empty value set gives the same result as an absent one: not parsed, and no value set |
| GpfAnnotations.EmptyDefaultValueIsUnset | beam-gpf/src/main/java/org/esa/beam/framework/gpf/annotations/ParameterDescriptorFactory.java:107-110 | an empty default value gives the same result as an absent one: not parsed, even without a converter, and no default value |
| Gpf.AbstractOperator.constructor | beam-gpf/src/main/java/org/esa/beam/framework/gpf/AbstractOperator.java:39-41 | stores the SPI; no context yet |
| Gpf.AbstractOperator.GetSpi | beam-gpf/src/main/java/org/esa/beam/framework/gpf/AbstractOperator.java:121-123 | returns the SPI given at construction |
| Gpf.AbstractOperator.GetContext | beam-gpf/src/main/java/org/esa/beam/framework/gpf/AbstractOperator.java:49-51 | returns the current context (none before `initialize`) |
| Gpf.AbstractOperator.Initialize | beam-gpf/src/main/java/org/esa/beam/framework/gpf/AbstractOperator.java:130-133 | the given context, a `null` one included, is stored before the subclass hook runs, and the hook's product or error is the result |
| Gpf.AbstractOperator.GetRaster | beam-gpf/src/main/java/org/esa/beam/framework/gpf/AbstractOperator.java:99-101 | delegates to the context with no buffer and the null progress monitor; a missing context is a `NullPointerException` |
| Gpf.AbstractOperator.GetRasterWithBuffer | beam-gpf/src/main/java/org/esa/beam/framework/gpf/AbstractOperator.java:108-115 | delegates with the caller's buffer, which must hold width * height samples |
| Gpf.AbstractOperator.ComputeBand | beam-gpf/src/main/java/org/esa/beam/framework/gpf/AbstractOperator.java:152-155 | always fails with `OperatorException("not implemented (only Band supported)")` |
| Gpf.AbstractOperator.ComputeAllBands | beam-gpf/src/main/java/org/esa/beam/framework/gpf/AbstractOperator.java:162-165 | always fails with `OperatorException("not implemented")` |
| Gpf.AbstractOperator.Dispose | beam-gpf/src/main/java/org/esa/beam/framework/gpf/AbstractOperator.java:172-173 | changes nothing |
| Gpf.Lifecycle | beam-gpf/src/main/java/org/esa/beam/framework/gpf/AbstractOperator.java:39-165 | construct, initialize, compute: no context before, the given one after, the SPI unchanged, both default computations fail with different messages |
| Spectrum.StateFor | beam-ui/src/main/java/org/esa/beam/framework/ui/product/spectrum/SpectrumChooser.java:480-489 | UNSELECTED iff the count is 0, SELECTED iff it is non-zero and equals the number of flags, MIXED otherwise |
| Spectrum.CountTrueUpdate | beam-ui/src/main/java/org/esa/beam/framework/ui/product/spectrum/SpectrumChooser.java:500-502 | setting one flag changes the number of true flags by exactly the difference it makes |
| Spectrum.CountTrueExtremes | beam-ui/src/main/java/org/esa/beam/framework/ui/product/spectrum/SpectrumChooser.java:462-468 | the number of true flags is 0 iff no flag is set, and the number of flags iff all are |
| Spectrum.StateOfCountedRow | beam-ui/src/main/java/org/esa/beam/framework/ui/product/spectrum/SpectrumChooser.java:480-489 | for a counted row: UNSELECTED iff no band is selected (also with no bands), SELECTED iff there are bands and all are selected, MIXED iff some are and some are not |
| Spectrum.CountDriftsWithoutFlip | beam-ui/src/main/java/org/esa/beam/framework/ui/product/spectrum/SpectrumChooser.java:500-510 | moving the counter by one when the flag does not flip leaves it off the number of true flags |
| Spectrum.CountFollowsFlip | beam-ui/src/main/java/org/esa/beam/framework/ui/product/spectrum/SpectrumChooser.java:551-557 | when the flag flips, the +1/-1 step keeps the counter equal to the number of true flags |
| Spectrum.ChildSelections | beam-ui/src/main/java/org/esa/beam/framework/ui/product/spectrum/SpectrumChooser.java:154-158 | one flag per band, true iff the band and the spectrum are both selected |
| Spectrum.ExpandedSelectedRowEvaluatesAlike | beam-ui/src/main/java/org/esa/beam/framework/ui/product/spectrum/SpectrumChooser.java:154-158 | for a selected spectrum the band table repeats its flags, and the doubled row evaluates to the same state |
| Spectrum.ExpandedUnselectedRowEvaluatesMixed | beam-ui/src/main/java/org/esa/beam/framework/ui/product/spectrum/SpectrumChooser.java:154-158 | for an unselected spectrum the table's flags are all false, so a row whose bands are all selected evaluates to MIXED once doubled |
| Spectrum.DefaultStyle | beam-ui/src/main/java/org/esa/beam/framework/ui/product/spectrum/SpectrumChooser.java:200-206 | keeps an existing line style or symbol; otherwise the predefined style at the row count modulo the number of styles |
| Spectrum.DefaultStylesCycle | beam-ui/src/main/java/org/esa/beam/framework/ui/product/spectrum/SpectrumChooser.java:200-206 | the default styles repeat after as many rows as there are styles |
| Spectrum.DefaultStylesDistinct | beam-ui/src/main/java/org/esa/beam/framework/ui/product/spectrum/SpectrumChooser.java:200-206 | with distinct predefined styles, two rows fewer than that many apart never share a default |
| Spectrum.Styled | beam-ui/src/main/java/org/esa/beam/framework/ui/product/spectrum/SpectrumChooser.java:199-206 | the spectrum with its line style and symbol filled in where missing, all else unchanged |
| Spectrum.SelectionAdmin.constructor | beam-ui/src/main/java/org/esa/beam/framework/ui/product/spectrum/SpectrumChooser.java:432-437 | three empty parallel lists |
| Spectrum.SelectionAdmin.AddSpectrumSelections | beam-ui/src/main/java/org/esa/beam/framework/ui/product/spectrum/SpectrumChooser.java:439-453 | appends one row: the spectrum's flags, the number of true flags and the evaluated state; existing rows unchanged |
| Spectrum.SelectionAdmin.AddBand | beam-ui/src/main/java/org/esa/beam/framework/ui/product/spectrum/SpectrumChooser.java:455-460 | appends one flag to the row, counts it iff true, leaves the state; a counted row stays counted |
| Spectrum.SelectionAdmin.AreNoBandsSelected | beam-ui/src/main/java/org/esa/beam/framework/ui/product/spectrum/SpectrumChooser.java:462-464 | the counter is 0; for a counted row, iff no flag is set |
| Spectrum.SelectionAdmin.AreAllBandsSelected | beam-ui/src/main/java/org/esa/beam/framework/ui/product/spectrum/SpectrumChooser.java:466-468 | the counter equals the number of flags; for a counted row, iff every flag is set |
| Spectrum.SelectionAdmin.IsBandSelected | beam-ui/src/main/java/org/esa/beam/framework/ui/product/spectrum/SpectrumChooser.java:470-478 | true under SELECTED, false under UNSELECTED, the stored flag under MIXED; the stored flag whenever the row is counted and evaluated |
| Spectrum.SelectionAdmin.ShownBands | beam-ui/src/main/java/org/esa/beam/framework/ui/product/spectrum/SpectrumChooser.java:470-478 | the first n reported flags: the stored ones under MIXED, all true under SELECTED, all false under UNSELECTED |
| Spectrum.SelectionAdmin.Evaluate | beam-ui/src/main/java/org/esa/beam/framework/ui/product/spectrum/SpectrumChooser.java:480-489 | sets only that row's state, to `StateFor(counter, number of flags)` |
| Spectrum.SelectionAdmin.GetState | beam-ui/src/main/java/org/esa/beam/framework/ui/product/spectrum/SpectrumChooser.java:491-494 | the stored state, not re-evaluated; for a counted, evaluated row SELECTED iff there are bands and all are selected |
| Spectrum.SelectionAdmin.IsSpectrumSelected | beam-ui/src/main/java/org/esa/beam/framework/ui/product/spectrum/SpectrumChooser.java:496-498 | iff the state is not UNSELECTED; for a counted, evaluated row iff some band is selected |
| Spectrum.SelectionAdmin.UpdateNumbersOfSelectedBands | beam-ui/src/main/java/org/esa/beam/framework/ui/product/spectrum/SpectrumChooser.java:551-557 | the row's counter moves by +1 for a selection, -1 otherwise; nothing else changes |
| Spectrum.SelectionAdmin.UpdateBandSelection | beam-ui/src/main/java/org/esa/beam/framework/ui/product/spectrum/SpectrumChooser.java:500-510 | sets one flag, moves the counter by +1/-1, re-evaluates the row; a counted row stays counted iff the flag actually flipped |
| Spectrum.SelectionAdmin.Normalized | beam-ui/src/main/java/org/esa/beam/framework/ui/product/spectrum/SpectrumChooser.java:512-519 | a forced UNSELECTED/SELECTED is kept; a forced MIXED becomes what evaluating the counter gives (UNSELECTED with no band, SELECTED with all) |
| Spectrum.SelectionAdmin.UpdateSpectrumSelection | beam-ui/src/main/java/org/esa/beam/framework/ui/product/spectrum/SpectrumChooser.java:512-520 | only that row's state changes, to the normalised forced state; flags and counters untouched |
| Spectrum.SpectrumTableModel.constructor | beam-ui/src/main/java/org/esa/beam/framework/ui/product/spectrum/SpectrumChooser.java:139-144 | one row per spectrum in order, each styled, counted and evaluated; column mirrors the admin; lock free |
| Spectrum.SpectrumTableModel.AddRow | beam-ui/src/main/java/org/esa/beam/framework/ui/product/spectrum/SpectrumChooser.java:199-213 | appends the styled spectrum, the admin row and its state to the column; keeps the column mirroring the admin |
| Spectrum.SpectrumTableModel.SetSelectionValue | beam-ui/src/main/java/org/esa/beam/framework/ui/product/spectrum/SpectrumChooser.java:241-264 | with the lock held only the column changes (admin untouched); otherwise the admin state is forced, the column, the spectrum's band flags, its band table and its selection follow it; the lock ends as it began |
| Spectrum.SpectrumTableModel.SelectionForced | beam-ui/src/main/java/org/esa/beam/framework/ui/product/spectrum/SpectrumChooser.java:242-264 | the guarded block: MIXED resolved, state forced, band flags and table rewritten from `isBandSelected`, spectrum selection set, lock released |
| Spectrum.SpectrumTableModel.UpdateBandsTable | beam-ui/src/main/java/org/esa/beam/framework/ui/product/spectrum/SpectrumChooser.java:275-287 | the row's spectrum flags (and band table, if built) become the flags `isBandSelected` reports; nothing else changes |
| Spectrum.SpectrumTableModel.BandSelectionEdited | beam-ui/src/main/java/org/esa/beam/framework/ui/product/spectrum/SpectrumChooser.java:169-195 | the cell and the spectrum's flag change; with the lock held the admin is untouched; otherwise the admin flag, counter and state, the column and the spectrum's selection follow; the lock ends as it began |
| Spectrum.SpectrumTableModel.BandSelectionPropagated | beam-ui/src/main/java/org/esa/beam/framework/ui/product/spectrum/SpectrumChooser.java:178-191 | the listener's guarded block, including the nested selection-column edit that the held lock keeps from reaching the admin |
| Spectrum.SpectrumTableModel.ExpandRow | beam-ui/src/main/java/org/esa/beam/framework/ui/product/spectrum/SpectrumChooser.java:147-168 | a row without a band table gets one; its flags are appended to the admin row and counted; the state is not re-evaluated; an expanded row is left alone |
| Spectrum.SpectrumTableModel.AddBands | beam-ui/src/main/java/org/esa/beam/framework/ui/product/spectrum/SpectrumChooser.java:154-158 | `addBand` for each flag: the flags appended and their true ones counted |
| StatisticsOutput.Basename | snap-statistics/src/main/java/org/esa/snap/statistics/output/EsriShapeFileWriter.java:23-26 | a name ending in `.shp` loses exactly that suffix; any other name is unchanged |
| StatisticsOutput.ShapefileName | snap-statistics/src/main/java/org/esa/snap/statistics/output/EsriShapeFileWriter.java:20-27 | always ends with `.shp`; a name already ending in `.shp` is kept; any other gets `.shp` appended |
| StatisticsOutput.ShapefileFor | snap-statistics/src/main/java/org/esa/snap/statistics/output/EsriShapeFileWriter.java:27 | same parent directory, normalised name; a file already named `*.shp` is returned as is |
| StatisticsOutput.ShapefileNameIdempotent | snap-statistics/src/main/java/org/esa/snap/statistics/output/EsriShapeFileWriter.java:23-27 | normalising twice is normalising once |
| StatisticsOutput.ShapefileForIdempotent | snap-statistics/src/main/java/org/esa/snap/statistics/output/EsriShapeFileWriter.java:23-27 | the same for the file |
| StatisticsOutput.ShapefileNameExamples | snap-statistics/src/main/java/org/esa/snap/statistics/output/EsriShapeFileWriter.java:24-27 | `stats.shp` and `stats` give `stats.shp`; the check is case-sensitive (`a.SHP` gives `a.SHP.shp`); `.shp` stays `.shp` |
| StatisticsOutput.ShapefileNameCollisions | snap-statistics/src/main/java/org/esa/snap/statistics/output/EsriShapeFileWriter.java:23-27 | a name `x` that does not end in `.shp` goes to the same shapefile as `x.shp`; conversely, two names that go to the same shapefile are equal or differ by one trailing `.shp` |
| StatisticsOutput.PlanWrite | snap-statistics/src/main/java/org/esa/snap/statistics/output/EsriShapeFileWriter.java:22-34 | fails iff the feature list is empty; otherwise targets the normalised file, with the first feature's type as schema and its local name as type name |

## Left out

- I/O and GUI: the GeoTools datastore, schema creation, transaction commit and
  rollback in `EsriShapeFileWriter.write`; Swing/JIDE renderers, the
  component factory, column setup, icon lookup through
  `ArrayUtils.getElementIndex`, and `fireTableCellUpdated`.
- The stroke and shape columns of `setValueAt` (icon to style lookup).
- `AbstractOperator.getLogger`, `getSourceProduct`, `getSourceProducts` and
  `getTargetProduct`. Each only forwards to the context, whose behaviour is
  not part of this model.
- `createVCF`, and the registry's `loadOperatorSpis` inside `getOpType`. The
  registry is the map the model is given.
- Reflection: annotation reading, `isAssignableFrom` and `newInstance`. They
  are inputs (`declaredInOperator`, the annotation value, each slot's
  instantiation outcome).
- GpfAnnotations.InstantiationFailure: the `ConversionException` carries only
  its message, not the reflection exception the code attaches as its cause,
  because instantiation by reflection is an input of the model.
- Library calls: pattern compilation, interval and value-set parsing, converter
  parsing and default-converter lookup. They are functions the model is given.
- Spectrum.SpectrumTableModel: `selectionChangeLock` is a field of the model,
  not a static shared by all choosers. Likewise the band-selection listener
  writes through `this` (`BandSelectionPropagated` calls `SetSelectionValue`
  on its own model), not through the static `spectraTable`, which in the code
  is the table of the most recently built chooser. Each spectrum is a value
  in the table's list, not a shared object.
- Spectrum.SelectionAdmin.AddSpectrumSelections: the `-1` placeholder state is
  written as UNSELECTED. It is overwritten by `evaluate` in the same call.
- Spectrum.SpectrumTableModel.ExpandRow: it merges `getChildValueAt` with the
  component factory's `rowToBandsTable.put`. Cell contents other than the
  selection flag (name, description, wavelength, bandwidth) are omitted.
- Spectrum.SpectrumTableModel.UpdateBandsTable: it assumes the band table is
  not re-sorted or filtered by the user, so its row i is band i and it has
  one row per band.
- `LayerCanvas`, `TestTestUtils` and `AggregatorConfig` are not part of this
  model. The same goes for tile dispatching, caching and parameter value
  binding, which the files do not contain.
