/**
 * The extraction of an uploaded project zip into the `project_files`
 * dictionary, the same comprehension in the HTTP back end and in the
 * Streamlit app.
 */
module ProjectArchive {
  import opened Strings

  /** A zip entry whose name ends in `"/"` is a directory and is skipped. */
  predicate IsDirectoryEntry(name: string) {
    EndsWith(name, "/")
  }

  /**
   * `{name: read(name) for name in names if not name.endswith("/")}`, where
   * `names` is the archive's name list and `read` stands for reading and
   * decoding an entry. Exactly the non-directory names become keys, each
   * with its decoded content.
   */
  function ProjectFiles(names: seq<string>, read: string -> string): (files: map<string, string>)
    ensures forall n :: n in files <==> n in names && !IsDirectoryEntry(n)
    ensures forall n :: n in files ==> files[n] == read(n)
  {
    if names == [] then map[]
    else
      var rest := ProjectFiles(names[..|names| - 1], read);
      var n := Last(names);
      assert names == names[..|names| - 1] + [n];
      if IsDirectoryEntry(n) then rest else rest[n := read(n)]
  }
}
