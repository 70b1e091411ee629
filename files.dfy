/** The working directory the crew writes its Markdown files into, seen as a
    table from path to file content. */
module FileTable {

  type Path = string

  type Table = map<Path, string>

  class FileSystem {
    var files: Table

    constructor (initial: Table)
      ensures files == initial
    {
      files := initial;
    }

    /** `os.path.exists(path)`. */
    predicate Exists(path: Path)
      reads this
    {
      path in files
    }

    /** `os.path.getsize(path)`: zero exactly when the file is empty. */
    function Size(path: Path): nat
      reads this
      requires Exists(path)
    {
      |files[path]|
    }

    /** `os.remove(path)`. */
    method Remove(path: Path)
      requires Exists(path)
      modifies this
      ensures files == old(files) - {path}
    {
      files := files - {path};
    }

    /** `open(path, 'w')`: creates the file, or empties it. */
    method Create(path: Path)
      modifies this
      ensures files == old(files)[path := []]
    {
      files := files[path := []];
    }

    /** `f.write(text)` on a file opened for writing. */
    method Append(path: Path, text: string)
      requires Exists(path)
      modifies this
      ensures files == old(files)[path := old(files)[path] + text]
    {
      files := files[path := files[path] + text];
    }
  }
}
