/**
 * The configuration options. Each `Option` is a closure that sets one field of a `Config`; the
 * three fields they can set are the `Settings` record, and applying an option is a record update.
 */
module ConfigOptions {

  const FileTypeYaml: string := "yaml"
  const FileTypeJson: string := "json"
  const FileTypeToml: string := "toml"

  /** The fields of `Config` that options set: environment prefix, directory and file type. */
  datatype Settings = Settings(envPrefix: string, dir: string, fileType: string)

  /** `WithFileTypeYaml()`, `WithFileTypeJson()`, `WithFileTypeToml()`, `WithDir(dir)`, `WithEnvPrefix(prefix)`. */
  datatype Option =
    | WithFileTypeYaml
    | WithFileTypeJson
    | WithFileTypeToml
    | WithDir(dir: string)
    | WithEnvPrefix(prefix: string)

  predicate SetsFileType(o: Option)
  {
    o.WithFileTypeYaml? || o.WithFileTypeJson? || o.WithFileTypeToml?
  }

  /** The file type an option of the first three kinds sets. */
  function FileTypeOf(o: Option): string
    requires SetsFileType(o)
  {
    match o
    case WithFileTypeYaml => FileTypeYaml
    case WithFileTypeJson => FileTypeJson
    case WithFileTypeToml => FileTypeToml
  }

  /** Running the option's closure: it sets its own field to its value and leaves the others alone. */
  function Apply(o: Option, s: Settings): (r: Settings)
    ensures o.WithFileTypeYaml? ==> r.fileType == "yaml"
    ensures o.WithFileTypeJson? ==> r.fileType == "json"
    ensures o.WithFileTypeToml? ==> r.fileType == "toml"
    ensures SetsFileType(o) ==> r.fileType == FileTypeOf(o)
    ensures o.WithDir? ==> r.dir == o.dir
    ensures o.WithEnvPrefix? ==> r.envPrefix == o.prefix
    ensures !SetsFileType(o) ==> r.fileType == s.fileType
    ensures !o.WithDir? ==> r.dir == s.dir
    ensures !o.WithEnvPrefix? ==> r.envPrefix == s.envPrefix
  {
    match o
    case WithFileTypeYaml => s.(fileType := FileTypeYaml)
    case WithFileTypeJson => s.(fileType := FileTypeJson)
    case WithFileTypeToml => s.(fileType := FileTypeToml)
    case WithDir(d) => s.(dir := d)
    case WithEnvPrefix(p) => s.(envPrefix := p)
  }

  /** Each option changes exactly one field: applied to any settings, it differs from them in that field only. */
  lemma OptionChangesOneField(o: Option, s: Settings)
    ensures Apply(o, s) == (if SetsFileType(o) then s.(fileType := Apply(o, s).fileType)
                            else if o.WithDir? then s.(dir := o.dir)
                            else s.(envPrefix := o.prefix))
  {
  }
}
