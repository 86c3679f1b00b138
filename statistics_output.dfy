/**
 * The file-name rule of `EsriShapeFileWriter.write`: the output file is the given
 * file's name without a trailing ".shp", with ".shp" appended, in the given file's
 * parent directory. The GeoTools data store and transaction are not modelled;
 * only the choice of the target file and of the schema's source feature is.
 */
module StatisticsOutput {
  import opened Wrappers

  /** `FILE_EXTENSION_SHAPEFILE` */
  const ShapefileExtension: string := ".shp"

  /** A `java.io.File`: the path of its parent directory (`null` for none) and its name. */
  datatype File = File(parent: Option<string>, name: string)

  /** `String.endsWith`: case-sensitive suffix test. */
  predicate EndsWith(s: string, suffix: string) {
    |suffix| <= |s| && s[|s| - |suffix|..] == suffix
  }

  /** The `basename` after the conditional `substring(0, length - 4)`. */
  function Basename(name: string): (b: string)
    ensures EndsWith(name, ShapefileExtension) ==> b + ShapefileExtension == name
    ensures !EndsWith(name, ShapefileExtension) ==> b == name
  {
    if EndsWith(name, ShapefileExtension) then name[..|name| - 4] else name
  }

  /** The name of the file the shapefile is written to. */
  function ShapefileName(name: string): (r: string)
    ensures EndsWith(r, ShapefileExtension)
    ensures EndsWith(name, ShapefileExtension) ==> r == name
    ensures !EndsWith(name, ShapefileExtension) ==> r == name + ShapefileExtension
  {
    Basename(name) + ShapefileExtension
  }

  /** `new File(file.getParentFile(), basename + FILE_EXTENSION_SHAPEFILE)` */
  function ShapefileFor(file: File): (f: File)
    ensures f.parent == file.parent
    ensures EndsWith(f.name, ShapefileExtension)
    ensures EndsWith(file.name, ShapefileExtension) ==> f == file
  {
    File(file.parent, ShapefileName(file.name))
  }

  /** Normalising a name that is already normalised changes nothing. */
  lemma ShapefileNameIdempotent(name: string)
    ensures ShapefileName(ShapefileName(name)) == ShapefileName(name)
  {
  }

  /** Normalising a file twice gives the same file as normalising once. */
  lemma ShapefileForIdempotent(file: File)
    ensures ShapefileFor(ShapefileFor(file)) == ShapefileFor(file)
  {
    ShapefileNameIdempotent(file.name);
  }

  /** No double suffix; the suffix test is case-sensitive. */
  lemma ShapefileNameExamples()
    ensures ShapefileName("stats.shp") == "stats.shp"
    ensures ShapefileName("stats") == "stats.shp"
    ensures ShapefileName("a.SHP") == "a.SHP.shp"
    ensures ShapefileName(".shp") == ".shp"
  {
    assert EndsWith("stats.shp", ShapefileExtension);
    assert !EndsWith("a.SHP", ShapefileExtension);
    assert !EndsWith("stats", ShapefileExtension) by {
      assert "stats"[1..] == "tats";
    }
  }

  /**
   * A name without the suffix and the same name with it go to the same file;
   * conversely, two names that normalise to the same file name either are
   * equal or differ only by the suffix.
   */
  lemma ShapefileNameCollisions(a: string, b: string)
    ensures !EndsWith(a, ShapefileExtension) ==> ShapefileName(a) == ShapefileName(a + ShapefileExtension)
    ensures ShapefileName(a) == ShapefileName(b) ==>
              a == b || a + ShapefileExtension == b || b + ShapefileExtension == a
  {
  }

  datatype SimpleFeatureType = SimpleFeatureType(localName: string)
  datatype SimpleFeature = SimpleFeature(featureType: SimpleFeatureType)

  /** What `write` hands to the data store: the target file, the schema, its type name and the features. */
  datatype WritePlan = WritePlan(target: File, schema: SimpleFeatureType, typeName: string, features: seq<SimpleFeature>)

  datatype WriteError = IndexOutOfBoundsException

  /**
   * The part of `write` before any I/O result matters: the schema is the type of
   * `features.get(0)`, which throws on an empty list.
   */
  function PlanWrite(features: seq<SimpleFeature>, file: File): (r: Result<WritePlan, WriteError>)
    ensures r.Failure? <==> features == []
    ensures r.Success? ==> r.value.target == ShapefileFor(file) && r.value.features == features
    ensures r.Success? ==> r.value.schema == features[0].featureType
                           && r.value.typeName == features[0].featureType.localName
  {
    if |features| == 0 then Failure(IndexOutOfBoundsException)
    else
      var schema := features[0].featureType;
      Success(WritePlan(ShapefileFor(file), schema, schema.localName, features))
  }
}
