/** The local disk as the scripts see it: regular files with their bytes, and
    directories with the names of the entries directly inside them. */
module Files {

  type Bytes = seq<bv8>

  /** `files` maps the path of each regular file to its contents; `dirs` maps the path of
      each directory to the names of its entries, in the order a directory listing yields them. */
  datatype FileSystem = FileSystem(files: map<string, Bytes>, dirs: map<string, seq<string>>)
  {
    /** `Path(p).exists()`: a file or a directory is there. */
    predicate Exists(p: string)
    {
      p in files || p in dirs
    }
  }
}
