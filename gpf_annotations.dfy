/**
 * `ParameterDescriptorFactory`: turns a field of an operator class, with its
 * optional `@Parameter` annotation, into a `ValueDescriptor`, or fails.
 *
 * Reflection is replaced by data: a `Field` carries its name, its type, whether
 * its declaring class is an `Operator`, and its annotation. The library code the
 * factory calls (regular-expression compilation, interval and value-set parsing,
 * converter parsing and the registry of default converters) is a `Library`
 * record of functions, each of which may throw.
 */
module GpfAnnotations {
  import opened Wrappers
  import Gpf

  /** A Java `String` reference: `None` is `null`. */
  type JString = Option<string>

  datatype FieldType = FieldType(className: string)

  /** Opaque instances produced by instantiation or by the library. */
  datatype Validator = Validator(className: string)
  datatype DomConverter = DomConverter(className: string)
  datatype Converter = Converter(className: string)
  datatype Pattern = Pattern(id: nat)
  datatype ValueRange = ValueRange(id: nat)
  datatype Value = Value(id: nat)
  datatype ValueSet = ValueSet(items: seq<Value>)

  /**
   * A class-valued annotation attribute: left at its default (the interface
   * class itself, e.g. `Validator.class`), or naming a class whose
   * `newInstance()` yields `instance`, or one whose `newInstance()` throws.
   */
  datatype Slot<T> = Default | Instantiable(instance: T) | Failing

  /** The attributes of `@Parameter` (`labelText` is its `label()`). */
  datatype Parameter = Parameter(
    labelText: JString, alias: JString, itemAlias: JString,
    unit: JString, description: JString,
    notNull: bool, notEmpty: bool, itemsInlined: bool,
    pattern: JString, interval: JString, format: JString,
    valueSet: Option<seq<string>>, defaultValue: JString,
    validator: Slot<Validator>, domConverter: Slot<DomConverter>, converter: Slot<Converter>)

  /** A reflected field: `declaredInOperator` is `Operator.class.isAssignableFrom(field.getDeclaringClass())`. */
  datatype Field = Field(name: string, fieldType: FieldType, declaredInOperator: bool, parameter: Option<Parameter>)

  /** Exceptions on the factory's paths. `LibraryException` is any other exception library code throws. */
  datatype Throwable =
    | ConversionException(message: string)
    | IllegalArgumentException(message: string, cause: Throwable)
    | IllegalStateException(message: string)
    | NullPointerException
    | LibraryException(message: string)

  /** The library calls the factory makes; each may throw. */
  datatype Library = Library(
    compilePattern: string -> Result<Pattern, Throwable>,                          // Pattern.compile
    parseValueRange: string -> Result<ValueRange, Throwable>,                      // ValueRange.parseValueRange
    parseValueSet: (seq<string>, Option<Converter>) -> Result<ValueSet, Throwable>,// ValueSet.parseValueSet
    parse: (Converter, string) -> Result<Value, Throwable>,                        // Converter.parse
    defaultConverter: FieldType -> Option<Converter>)                              // used by setDefaultConverter

  /** The descriptor's properties, as the factory's setters leave them. */
  datatype ValueDescriptor = ValueDescriptor(
    name: string, valueType: FieldType,
    validator: Option<Validator>, domConverter: Option<DomConverter>, converter: Option<Converter>,
    displayName: JString, alias: JString, itemAlias: JString,
    itemsInlined: bool, unit: JString, description: JString,
    notNull: bool, notEmpty: bool,
    pattern: Option<Pattern>, valueRange: Option<ValueRange>, format: JString,
    valueSet: Option<ValueSet>, defaultValue: Option<Value>)

  // ---------------------------------------------------------------------------
  // isNull / isEmpty / isSet

  predicate IsNull<T>(value: Option<T>) {
    value.None?
  }

  predicate IsEmpty(value: string) {
    |value| == 0
  }

  predicate IsEmptyArray(value: seq<string>) {
    |value| == 0
  }

  /** `isSet(String)` */
  predicate IsSet(value: JString) {
    !IsNull(value) && !IsEmpty(value.value)
  }

  /** `isSet(String[])` */
  predicate IsSetArray(value: Option<seq<string>>) {
    !IsNull(value) && !IsEmptyArray(value.value)
  }

  /** Both `isSet` overloads hold exactly of a non-null, non-empty value. */
  lemma IsSetIffPresentAndNonEmpty(s: JString, a: Option<seq<string>>)
    ensures IsSet(s) <==> (exists t :: s == Some(t) && t != [])
    ensures IsSetArray(a) <==> (exists t :: a == Some(t) && t != [])
  {
    if s.Some? { assert s == Some(s.value); }
    if a.Some? { assert a == Some(a.value); }
  }

  // ---------------------------------------------------------------------------
  // The descriptor the factory builds, defined declaratively

  /** `new ValueDescriptor(field.getName(), field.getType())`: nothing but name and type. */
  function NewDescriptor(name: string, t: FieldType): (d: ValueDescriptor) {
    ValueDescriptor(name, t, None, None, None, None, None, None,
                    false, None, None, false, false, None, None, None, None, None)
  }

  function SlotInstance<T>(slot: Slot<T>): (instance: Option<T>) {
    if slot.Instantiable? then Some(slot.instance) else None
  }

  /** A text attribute that is applied only when set. */
  function IfSet(s: JString): (applied: JString) {
    if IsSet(s) then s else None
  }

  /** The converter in place once the converter step is done: the declared one, else the type's default. */
  function ResolvedConverter(p: Parameter, t: FieldType, lib: Library): (c: Option<Converter>) {
    if p.converter.Instantiable? then Some(p.converter.instance) else lib.defaultConverter(t)
  }

  /** Parsing the default value with the converter in place; a null converter is dereferenced. */
  function ParseDefault(p: Parameter, c: Option<Converter>, lib: Library): (r: Result<Value, Throwable>)
    requires IsSet(p.defaultValue)
  {
    if c.None? then Failure(NullPointerException) else lib.parse(c.value, p.defaultValue.value)
  }

  /** The exception instantiating the declared classes throws, if any, in the order the factory tries them. */
  function InstantiationFailure(p: Parameter): (e: Option<Throwable>) {
    if p.validator.Failing? then Some(ConversionException("Failed to create validator."))
    else if p.domConverter.Failing? then Some(ConversionException("Failed to create domConverter."))
    else if p.converter.Failing? then Some(ConversionException("Failed to create converter."))
    else None
  }

  /**
   * The exception the constraint steps throw, if any, given the converter in
   * place: pattern, interval, value set, default value; the first failing one decides.
   */
  function ConstraintFailure(p: Parameter, c: Option<Converter>, lib: Library): (e: Option<Throwable>) {
    if IsSet(p.pattern) && lib.compilePattern(p.pattern.value).Failure? then
      Some(lib.compilePattern(p.pattern.value).error)
    else if IsSet(p.interval) && lib.parseValueRange(p.interval.value).Failure? then
      Some(lib.parseValueRange(p.interval.value).error)
    else if IsSetArray(p.valueSet) && lib.parseValueSet(p.valueSet.value, c).Failure? then
      Some(lib.parseValueSet(p.valueSet.value, c).error)
    else if IsSet(p.defaultValue) && ParseDefault(p, c, lib).Failure? then
      Some(ParseDefault(p, c, lib).error)
    else None
  }

  /**
   * The descriptor once the declared classes are attached and the steps that
   * cannot fail (texts, default converter, flags) are done.
   */
  function Described(name: string, t: FieldType, p: Parameter, lib: Library): (d: ValueDescriptor) {
    ValueDescriptor(
      name := name, valueType := t,
      validator := SlotInstance(p.validator), domConverter := SlotInstance(p.domConverter),
      converter := ResolvedConverter(p, t, lib),
      displayName := IfSet(p.labelText), alias := IfSet(p.alias), itemAlias := IfSet(p.itemAlias),
      itemsInlined := p.itemsInlined, unit := p.unit, description := p.description,
      notNull := p.notNull, notEmpty := p.notEmpty,
      pattern := None, valueRange := None, format := None, valueSet := None, defaultValue := None)
  }

  /** The constraint steps applied to `d`; value set and default value are parsed with `d`'s converter. */
  function Constrained(d: ValueDescriptor, p: Parameter, lib: Library): (r: Result<ValueDescriptor, Throwable>) {
    match ConstraintFailure(p, d.converter, lib)
    case Some(e) => Failure(e)
    case None =>
      Success(d.(
        pattern := if IsSet(p.pattern) then Some(lib.compilePattern(p.pattern.value).value) else None,
        valueRange := if IsSet(p.interval) then Some(lib.parseValueRange(p.interval.value).value) else None,
        format := IfSet(p.format),
        valueSet := if IsSetArray(p.valueSet) then Some(lib.parseValueSet(p.valueSet.value, d.converter).value) else None,
        defaultValue := if IsSet(p.defaultValue) then Some(ParseDefault(p, d.converter, lib).value) else None))
  }

  /**
   * What `createValueDescriptorImpl` returns for a field: `Success(None)` is the
   * `null` it returns for an unannotated field of an operator class.
   */
  function DescriptorOf(f: Field, lib: Library): (r: Result<Option<ValueDescriptor>, Throwable>) {
    match f.parameter
    case None =>
      if f.declaredInOperator then Success(None) else Success(Some(NewDescriptor(f.name, f.fieldType)))
    case Some(p) =>
      if InstantiationFailure(p).Some? then Failure(InstantiationFailure(p).value)
      else
        match Constrained(Described(f.name, f.fieldType, p, lib), p, lib)
        case Failure(e) => Failure(e)
        case Success(d) => Success(Some(d))
  }

  /** `createValueDescriptor`'s catch clause: a `ConversionException` becomes `IllegalArgumentException("field", e)`. */
  function Rethrown(e: Throwable): (r: Throwable) {
    if e.ConversionException? then IllegalArgumentException("field", e) else e
  }

  // ---------------------------------------------------------------------------
  // The factory

  /**
   * `createValueDescriptorImpl`: a fixed sequence of setter calls with early
   * exits. Up to the constraint steps, each property the setters write is a
   * local variable, and the descriptor is assembled from them; the constraint
   * steps are `ApplyConstraints`.
   */
  method CreateValueDescriptorImpl(field: Field, lib: Library) returns (r: Result<Option<ValueDescriptor>, Throwable>)
    ensures r == DescriptorOf(field, lib)
  {
    var operatorDetected := field.declaredInOperator;
    var parameter := field.parameter;
    if operatorDetected && parameter.None? {
      return Success(None);
    }
    if parameter.None? {
      return Success(Some(NewDescriptor(field.name, field.fieldType)));
    }
    var p := parameter.value;
    var validator: Option<Validator> := None;
    var domConverter: Option<DomConverter> := None;
    var converter: Option<Converter> := None;
    if !p.validator.Default? {
      if p.validator.Failing? {
        return Failure(ConversionException("Failed to create validator."));
      }
      validator := Some(p.validator.instance);
    }
    if !p.domConverter.Default? {
      if p.domConverter.Failing? {
        return Failure(ConversionException("Failed to create domConverter."));
      }
      domConverter := Some(p.domConverter.instance);
    }
    if !p.converter.Default? {
      if p.converter.Failing? {
        return Failure(ConversionException("Failed to create converter."));
      }
      converter := Some(p.converter.instance);
    }
    assert InstantiationFailure(p).None? && converter == SlotInstance(p.converter);
    var displayName, alias, itemAlias: JString := None, None, None;
    if IsSet(p.labelText) {
      displayName := p.labelText;
    }
    if IsSet(p.alias) {
      alias := p.alias;
    }
    if IsSet(p.itemAlias) {
      itemAlias := p.itemAlias;
    }
    if converter.None? {
      converter := lib.defaultConverter(field.fieldType);
    }
    var vd := ValueDescriptor(
      field.name, field.fieldType, validator, domConverter, converter,
      displayName, alias, itemAlias, p.itemsInlined, p.unit, p.description, p.notNull, p.notEmpty,
      None, None, None, None, None);
    assert vd == Described(field.name, field.fieldType, p, lib);
    r := ApplyConstraints(vd, p, lib);
  }

  /**
   * The constraint steps of `createValueDescriptorImpl`: compile the pattern,
   * parse the interval, attach the format, and parse the value set and the
   * default value with the descriptor's converter.
   */
  method ApplyConstraints(vd: ValueDescriptor, p: Parameter, lib: Library) returns (r: Result<Option<ValueDescriptor>, Throwable>)
    ensures r.Failure? <==> ConstraintFailure(p, vd.converter, lib).Some?
    ensures r.Failure? ==> r.error == ConstraintFailure(p, vd.converter, lib).value
    ensures r.Success? ==> r.value == Some(Constrained(vd, p, lib).value)
  {
    var pattern: Option<Pattern> := None;
    if IsSet(p.pattern) {
      var compiled := lib.compilePattern(p.pattern.value);
      if compiled.Failure? {
        return Failure(compiled.error);
      }
      pattern := Some(compiled.value);
    }
    var valueRange: Option<ValueRange> := None;
    if IsSet(p.interval) {
      var range := lib.parseValueRange(p.interval.value);
      if range.Failure? {
        return Failure(range.error);
      }
      valueRange := Some(range.value);
    }
    var format: JString := None;
    if IsSet(p.format) {
      format := p.format;
    }
    var valueSet: Option<ValueSet> := None;
    if IsSetArray(p.valueSet) {
      var parsed := lib.parseValueSet(p.valueSet.value, vd.converter);
      if parsed.Failure? {
        return Failure(parsed.error);
      }
      valueSet := Some(parsed.value);
    }
    var defaultValue: Option<Value> := None;
    if IsSet(p.defaultValue) {
      if vd.converter.None? {
        return Failure(NullPointerException);
      }
      var value := lib.parse(vd.converter.value, p.defaultValue.value);
      if value.Failure? {
        return Failure(value.error);
      }
      defaultValue := Some(value.value);
    }
    return Success(Some(vd.(pattern := pattern, valueRange := valueRange, format := format,
                            valueSet := valueSet, defaultValue := defaultValue)));
  }

  /** `createValueDescriptor`: the implementation, with conversion failures rethrown as illegal arguments. */
  method CreateValueDescriptor(field: Field, lib: Library) returns (r: Result<Option<ValueDescriptor>, Throwable>)
    ensures DescriptorOf(field, lib).Success? ==> r == DescriptorOf(field, lib)
    ensures DescriptorOf(field, lib).Failure? ==> r == Failure(Rethrown(DescriptorOf(field, lib).error))
    ensures r.Failure? ==> !r.error.ConversionException?
  {
    r := CreateValueDescriptorImpl(field, lib);
    if r.Failure? && r.error.ConversionException? {
      r := Failure(IllegalArgumentException("field", r.error));
    }
  }

  /** `getOpType`: the operator class registered under the name, or an `IllegalStateException`. */
  function GetOpType(registry: map<string, Gpf.OperatorSpi>, operatorName: string): (r: Result<string, Throwable>)
    ensures r.Failure? <==> operatorName !in registry
    ensures r.Failure? ==> r.error == IllegalStateException("Operator SPI not found for operator [" + operatorName + "]")
    ensures r.Success? ==> r.value == registry[operatorName].operatorClass
  {
    if operatorName in registry then Success(registry[operatorName].operatorClass)
    else Failure(IllegalStateException("Operator SPI not found for operator [" + operatorName + "]"))
  }

  // ---------------------------------------------------------------------------
  // Properties of the descriptor

  /** Without `@Parameter`: no descriptor for a field of an operator class, otherwise a bare one. */
  lemma UnannotatedFields(f: Field, lib: Library)
    requires f.parameter.None?
    ensures f.declaredInOperator ==> DescriptorOf(f, lib) == Success(None)
    ensures !f.declaredInOperator ==> DescriptorOf(f, lib) == Success(Some(NewDescriptor(f.name, f.fieldType)))
    ensures DescriptorOf(f, lib).Success?
  {
  }

  /** Only an unannotated field of an operator class yields no descriptor. */
  lemma NoDescriptorOnlyForOperatorInternals(f: Field, lib: Library)
    ensures DescriptorOf(f, lib) == Success(None) <==> (f.declaredInOperator && f.parameter.None?)
  {
  }

  /**
   * A declared validator, DOM converter or converter that cannot be instantiated
   * is a `ConversionException` (the first failing one in that order), which
   * `createValueDescriptor` turns into an `IllegalArgumentException`.
   */
  lemma InstantiationFailures(f: Field, lib: Library)
    requires f.parameter.Some?
    requires f.parameter.value.validator.Failing? || f.parameter.value.domConverter.Failing?
             || f.parameter.value.converter.Failing?
    ensures DescriptorOf(f, lib).Failure? && DescriptorOf(f, lib).error.ConversionException?
    ensures f.parameter.value.validator.Failing? ==>
              DescriptorOf(f, lib) == Failure(ConversionException("Failed to create validator."))
    ensures !f.parameter.value.validator.Failing? && f.parameter.value.domConverter.Failing? ==>
              DescriptorOf(f, lib) == Failure(ConversionException("Failed to create domConverter."))
    ensures !f.parameter.value.validator.Failing? && !f.parameter.value.domConverter.Failing? ==>
              DescriptorOf(f, lib) == Failure(ConversionException("Failed to create converter."))
    ensures Rethrown(DescriptorOf(f, lib).error).IllegalArgumentException?
    ensures Rethrown(DescriptorOf(f, lib).error).message == "field"
  {
  }

  /** The error classes: every failure comes from one of the factory's fallible steps. */
  lemma FailuresComeFromSteps(f: Field, lib: Library)
    requires DescriptorOf(f, lib).Failure?
    ensures f.parameter.Some?
    ensures var p := f.parameter.value; var e := DescriptorOf(f, lib).error;
            || p.validator.Failing? || p.domConverter.Failing? || p.converter.Failing?
            || (IsSet(p.pattern) && lib.compilePattern(p.pattern.value) == Failure(e))
            || (IsSet(p.interval) && lib.parseValueRange(p.interval.value) == Failure(e))
            || (IsSetArray(p.valueSet) && lib.parseValueSet(p.valueSet.value, ResolvedConverter(p, f.fieldType, lib)) == Failure(e))
            || (IsSet(p.defaultValue) && ParseDefault(p, ResolvedConverter(p, f.fieldType, lib), lib) == Failure(e))
  {
  }

  /**
   * After the annotation is processed the converter is the declared one if
   * there is one, else the type's default; so it is present whenever the
   * registry knows a converter for the type.
   */
  lemma ConverterResolved(f: Field, lib: Library)
    requires f.parameter.Some? && DescriptorOf(f, lib).Success?
    ensures DescriptorOf(f, lib).value.Some?
    ensures var d := DescriptorOf(f, lib).value.value; var p := f.parameter.value;
            && (p.converter.Instantiable? ==> d.converter == Some(p.converter.instance))
            && (p.converter.Default? ==> d.converter == lib.defaultConverter(f.fieldType))
            && (d.converter.None? ==> p.converter.Default? && lib.defaultConverter(f.fieldType).None?)
  {
  }

  /**
   * The value set and the default value are parsed with that converter; the
   * default value is exactly the converter's parse of the annotation's text.
   */
  lemma DefaultValueParsedWithConverter(f: Field, lib: Library)
    requires f.parameter.Some? && DescriptorOf(f, lib).Success?
    ensures var d := DescriptorOf(f, lib).value.value; var p := f.parameter.value;
            && (IsSet(p.defaultValue) ==> d.converter.Some? && d.defaultValue == Some(lib.parse(d.converter.value, p.defaultValue.value).value))
            && (!IsSet(p.defaultValue) ==> d.defaultValue == None)
            && (IsSetArray(p.valueSet) ==> d.valueSet == Some(lib.parseValueSet(p.valueSet.value, d.converter).value))
            && (!IsSetArray(p.valueSet) ==> d.valueSet == None)
  {
  }

  /**
   * A default value that does not parse is a construction error; a
   * `ConversionException` from the converter reaches `createValueDescriptor`'s
   * caller as an `IllegalArgumentException`.
   */
  lemma DefaultValueParseFailure(f: Field, lib: Library, c: Converter, e: Throwable)
    requires f.parameter.Some?
    requires var p := f.parameter.value;
             && InstantiationFailure(p).None?
             && ConstraintFailure(p.(defaultValue := None), Some(c), lib).None?
             && IsSet(p.defaultValue)
             && ResolvedConverter(p, f.fieldType, lib) == Some(c)
             && lib.parse(c, p.defaultValue.value) == Failure(e)
    ensures DescriptorOf(f, lib) == Failure(e)
    ensures e.ConversionException? ==> Rethrown(e) == IllegalArgumentException("field", e)
  {
  }

  /** Label (as display name), alias, item alias, pattern, interval and format are set only when given. */
  lemma ConditionalFields(f: Field, lib: Library)
    requires f.parameter.Some? && DescriptorOf(f, lib).Success?
    ensures var d := DescriptorOf(f, lib).value.value; var p := f.parameter.value;
            && (d.displayName.Some? <==> IsSet(p.labelText)) && (IsSet(p.labelText) ==> d.displayName == p.labelText)
            && (d.alias.Some? <==> IsSet(p.alias)) && (IsSet(p.alias) ==> d.alias == p.alias)
            && (d.itemAlias.Some? <==> IsSet(p.itemAlias)) && (IsSet(p.itemAlias) ==> d.itemAlias == p.itemAlias)
            && (d.pattern.Some? <==> IsSet(p.pattern))
            && (IsSet(p.pattern) ==> d.pattern == Some(lib.compilePattern(p.pattern.value).value))
            && (d.valueRange.Some? <==> IsSet(p.interval))
            && (IsSet(p.interval) ==> d.valueRange == Some(lib.parseValueRange(p.interval.value).value))
            && (d.format.Some? <==> IsSet(p.format)) && (IsSet(p.format) ==> d.format == p.format)
  {
  }

  /**
   * Items-inlined, unit, description, not-null and not-empty are copied whatever
   * their value; validator and DOM converter are the created instances, if any.
   */
  lemma UnconditionalFields(f: Field, lib: Library)
    requires f.parameter.Some? && DescriptorOf(f, lib).Success?
    ensures var d := DescriptorOf(f, lib).value.value; var p := f.parameter.value;
            && d.name == f.name && d.valueType == f.fieldType
            && d.itemsInlined == p.itemsInlined && d.unit == p.unit && d.description == p.description
            && d.notNull == p.notNull && d.notEmpty == p.notEmpty
            && d.validator == SlotInstance(p.validator) && d.domConverter == SlotInstance(p.domConverter)
  {
  }

  /*
   * Each attribute the factory tests with `isSet` behaves, when empty, like an
   * absent one, one attribute at a time. `unit` and `description` are not
   * among them: they are copied whatever their value.
   */

  /** An empty label is an absent one. */
  lemma EmptyLabelIsUnset(f: Field, lib: Library)
    requires f.parameter.Some?
    ensures var p := f.parameter.value;
            DescriptorOf(f.(parameter := Some(p.(labelText := Some("")))), lib)
            == DescriptorOf(f.(parameter := Some(p.(labelText := None))), lib)
  {
  }

  /** An empty alias is an absent one. */
  lemma EmptyAliasIsUnset(f: Field, lib: Library)
    requires f.parameter.Some?
    ensures var p := f.parameter.value;
            DescriptorOf(f.(parameter := Some(p.(alias := Some("")))), lib)
            == DescriptorOf(f.(parameter := Some(p.(alias := None))), lib)
  {
  }

  /** An empty item alias is an absent one. */
  lemma EmptyItemAliasIsUnset(f: Field, lib: Library)
    requires f.parameter.Some?
    ensures var p := f.parameter.value;
            DescriptorOf(f.(parameter := Some(p.(itemAlias := Some("")))), lib)
            == DescriptorOf(f.(parameter := Some(p.(itemAlias := None))), lib)
  {
  }

  /** An empty pattern is an absent one: it is neither compiled nor stored. */
  lemma EmptyPatternIsUnset(f: Field, lib: Library)
    requires f.parameter.Some?
    ensures var p := f.parameter.value;
            DescriptorOf(f.(parameter := Some(p.(pattern := Some("")))), lib)
            == DescriptorOf(f.(parameter := Some(p.(pattern := None))), lib)
  {
  }

  /** An empty interval is an absent one: it is neither parsed nor stored. */
  lemma EmptyIntervalIsUnset(f: Field, lib: Library)
    requires f.parameter.Some?
    ensures var p := f.parameter.value;
            DescriptorOf(f.(parameter := Some(p.(interval := Some("")))), lib)
            == DescriptorOf(f.(parameter := Some(p.(interval := None))), lib)
  {
  }

  /** An empty format is an absent one. */
  lemma EmptyFormatIsUnset(f: Field, lib: Library)
    requires f.parameter.Some?
    ensures var p := f.parameter.value;
            DescriptorOf(f.(parameter := Some(p.(format := Some("")))), lib)
            == DescriptorOf(f.(parameter := Some(p.(format := None))), lib)
  {
  }

  /** An empty value set is an absent one: it is neither parsed nor stored. */
  lemma EmptyValueSetIsUnset(f: Field, lib: Library)
    requires f.parameter.Some?
    ensures var p := f.parameter.value;
            DescriptorOf(f.(parameter := Some(p.(valueSet := Some([])))), lib)
            == DescriptorOf(f.(parameter := Some(p.(valueSet := None))), lib)
  {
  }

  /** An empty default value is an absent one: it is neither parsed nor stored. */
  lemma EmptyDefaultValueIsUnset(f: Field, lib: Library)
    requires f.parameter.Some?
    ensures var p := f.parameter.value;
            DescriptorOf(f.(parameter := Some(p.(defaultValue := Some("")))), lib)
            == DescriptorOf(f.(parameter := Some(p.(defaultValue := None))), lib)
  {
  }

  /** The eight attributes above emptied together behave like all eight absent. */
  lemma EmptyTextIsUnset(f: Field, lib: Library)
    requires f.parameter.Some?
    ensures var p := f.parameter.value;
            var q := p.(labelText := Some(""), alias := Some(""), itemAlias := Some(""),
                        pattern := Some(""), interval := Some(""), format := Some(""),
                        valueSet := Some([]), defaultValue := Some(""));
            var r := p.(labelText := None, alias := None, itemAlias := None,
                        pattern := None, interval := None, format := None,
                        valueSet := None, defaultValue := None);
            DescriptorOf(f.(parameter := Some(q)), lib) == DescriptorOf(f.(parameter := Some(r)), lib)
  {
  }
}
