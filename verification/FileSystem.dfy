/** Files as a map from paths to contents, with single steps that may fail. */
module FileSystem {
  import opened Order

  /** Regular files with their contents, and directories. Paths are canonical. */
  datatype Fs = Fs(files: map<Path, string>, dirs: set<Path>)

  /** Every file and directory lies in directories that exist, and nothing is both. */
  ghost predicate ValidFs(fs: Fs)
  {
    && (forall p, k :: p in fs.files && 0 <= k < |p| ==> p[..k] in fs.dirs)
    && (forall d, k :: d in fs.dirs && 0 <= k < |d| ==> d[..k] in fs.dirs)
    && (forall p :: p in fs.files ==> p !in fs.dirs && p != [])
  }

  function Parent(p: Path): Path
    requires p != []
  {
    p[..|p| - 1]
  }

  function Written(fs: Fs, p: Path, content: string): Fs
  {
    fs.(files := fs.files[p := content])
  }

  function Removed(fs: Fs, p: Path): Fs
  {
    fs.(files := fs.files - {p})
  }

  /** A step returns the file system it leaves and whether it succeeded. */
  datatype Stepped = Stepped(fs: Fs, ok: bool)

  function CreateNew(fs: Fs, p: Path, ok: bool): Stepped
  {
    if ok && p !in fs.files && p !in fs.dirs then Stepped(Written(fs, p, ""), true) else Stepped(fs, false)
  }

  function Overwrite(fs: Fs, p: Path, content: string, ok: bool): Stepped
  {
    if ok && p in fs.files then Stepped(Written(fs, p, content), true) else Stepped(fs, false)
  }

  function CopyFile(fs: Fs, from: Path, to: Path, ok: bool): Stepped
  {
    if ok && from in fs.files && to !in fs.dirs
    then Stepped(Written(fs, to, fs.files[from]), true)
    else Stepped(fs, false)
  }

  function Rename(fs: Fs, from: Path, to: Path, ok: bool): Stepped
  {
    if ok && from in fs.files && to !in fs.dirs
    then Stepped(Written(Removed(fs, from), to, fs.files[from]), true)
    else Stepped(fs, false)
  }

  function RemoveFile(fs: Fs, p: Path, ok: bool): Stepped
  {
    if ok && p in fs.files then Stepped(Removed(fs, p), true) else Stepped(fs, false)
  }

  function CreateDir(fs: Fs, p: Path, ok: bool): Stepped
  {
    if ok && p !in fs.dirs && p !in fs.files then Stepped(fs.(dirs := fs.dirs + {p}), true) else Stepped(fs, false)
  }
}
