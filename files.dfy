/** Stored files as the catalogue sees them: a name and the bytes behind it. */
module Files {

  import opened Wrappers

  newtype byte = x: int | 0 <= x < 256

  /**
   * A file field (`ImageField`) value. `name` is the stored name, "" when the field is
   * empty; `stream` is what reading the file from the start gives, `None` when seeking
   * or reading it raises.
   */
  datatype FieldFile = FieldFile(name: string, stream: Option<seq<byte>>)

  /** `bool(field_file)`: a file field is true exactly when it has a name. */
  predicate IsSet(f: FieldFile) {
    f.name != ""
  }
}
