/**
 * The file registry's action creators: `selectFile`, which fills in what the
 * caller did not give from `fs.statSync`, the deferred body of
 * `filePackageSelect`, which turns produced artifacts into file entries, and
 * `activeFile` with its default argument.
 */
module Files {
  import opened Wrappers
  import opened Js
  import opened Entities

  /** `!lastModifiedDate || !size`: the file must be statted (a missing date, or a size that is missing or 0). */
  predicate NeedsStat(lastModifiedDate: Option<int>, size: Option<int>) {
    lastModifiedDate.None? || size.None? || size.value == 0
  }

  /**
   * The action `selectFile` returns; `None` when the file must be statted and
   * `fs.statSync` throws (the throw reaches the caller).
   */
  function SelectFileAction(
    fullpath: string, name: Option<string>, lastModifiedDate: Option<int>, size: Option<int>, host: Host): Option<Action>
  {
    var stat := if NeedsStat(lastModifiedDate, size) then host.statSync(fullpath) else None;
    if NeedsStat(lastModifiedDate, size) && stat.None? then None
    else
      Some(SelectFile(SelectedFile(
        host.extFile(fullpath),
        if Present(name) then name.value else host.basename(fullpath),
        fullpath,
        if lastModifiedDate.Some? then lastModifiedDate.value else stat.value.birthtime,
        if size.Some? && size.value != 0 then size.value else stat.value.size)))
  }

  /**
   * `selectFile` throws exactly when it needs the file's status and cannot get it.
   * Otherwise its SELECT_FILE action (which asks the reducer for an id) keeps the
   * path, takes the extension from the path, a given name or else the base name,
   * a given date or else the birth time, a given non-zero size or else the size on disk.
   */
  lemma SelectFileSpec(fullpath: string, name: Option<string>, lastModifiedDate: Option<int>, size: Option<int>, host: Host)
    ensures SelectFileAction(fullpath, name, lastModifiedDate, size, host).None? <==>
      NeedsStat(lastModifiedDate, size) && host.statSync(fullpath).None?
    ensures SelectFileAction(fullpath, name, lastModifiedDate, size, host).Some? ==>
      var a := SelectFileAction(fullpath, name, lastModifiedDate, size, host).value;
      && a.SelectFile? && a.GeneratesId()
      && a.file.fullpath == fullpath
      && a.file.extension == host.extFile(fullpath)
      && (Present(name) ==> a.file.filename == name.value)
      && (!Present(name) ==> a.file.filename == host.basename(fullpath))
      && (lastModifiedDate.Some? ==> a.file.lastModifiedDate == lastModifiedDate.value)
      && (lastModifiedDate.None? ==> a.file.lastModifiedDate == host.statSync(fullpath).value.birthtime)
      && (size.Some? && size.value != 0 ==> a.file.size == size.value)
      && (size.None? || size.value == 0 ==> a.file.size == host.statSync(fullpath).value.size)
  {
  }

  /** With both a date and a non-zero size given, the file system is not consulted at all. */
  lemma SelectFileWithoutStat(
    fullpath: string, name: Option<string>, date: int, size: int, host1: Host, host2: Host)
    requires size != 0
    requires host1.extFile == host2.extFile && host1.basename == host2.basename
    ensures SelectFileAction(fullpath, name, Some(date), Some(size), host1) ==
            SelectFileAction(fullpath, name, Some(date), Some(size), host2)
    ensures SelectFileAction(fullpath, name, Some(date), Some(size), host1).Some?
  {
  }

  /** The entry `filePackageSelect` builds for an artifact, given its status and the identifier drawn for it. */
  function Entry(file: FilePath, stat: Stat, id: Stamp, host: Host): FileEntry {
    FileEntry(id, host.basename(file.fullpath), stat.birthtime, file.fullpath, host.extFile(file.fullpath),
              stat.size, true, file.extra, file.remoteId, file.socket)
  }

  /**
   * The `filePackage` of the deferred body of `filePackageSelect`, artifact by
   * artifact; the k-th entry draws the k-th identifier. `None` when some
   * `fs.statSync` throws.
   */
  function SelectedPackage(files: seq<FilePath>, host: Host): Option<seq<FileEntry>> {
    if files == [] then Some([])
    else
      match SelectedPackage(files[..|files| - 1], host)
      case None => None
      case Some(prev) =>
        var file := files[|files| - 1];
        match host.statSync(file.fullpath)
        case None => None
        case Some(stat) => Some(prev + [Entry(file, stat, host.freshId(|prev|), host)])
  }

  /** The `forEach` that fills `filePackage`. */
  method BuildFilePackage(files: seq<FilePath>, host: Host) returns (filePackage: Option<seq<FileEntry>>)
    ensures filePackage == SelectedPackage(files, host)
  {
    var entries: seq<FileEntry> := [];
    for i := 0 to |files|
      invariant SelectedPackage(files[..i], host) == Some(entries)
    {
      assert files[..i + 1][..i] == files[..i];
      var file := files[i];
      var stat := host.statSync(file.fullpath);
      if stat.None? {
        SelectedPackageSpec(files, host);
        return None;
      }
      var fileProps := FileEntry(
        host.freshId(|entries|), host.basename(file.fullpath), stat.value.birthtime, file.fullpath,
        host.extFile(file.fullpath), stat.value.size, true, file.extra, file.remoteId, file.socket);
      entries := entries + [fileProps];
    }
    assert files[..|files|] == files;
    return Some(entries);
  }

  /** `entry` is the active file entry of artifact `file`, whose status is `stat`, with identifier `id`. */
  ghost predicate DescribesEntry(entry: FileEntry, file: FilePath, stat: Stat, id: Num, host: Host) {
    && entry.id == id
    && entry.active
    && entry.fullpath == file.fullpath
    && entry.filename == host.basename(file.fullpath)
    && entry.extension == host.extFile(file.fullpath)
    && entry.lastModifiedDate == stat.birthtime
    && entry.size == stat.size
    && entry.extra == file.extra
    && entry.remoteId == file.remoteId
    && entry.socket == file.socket
  }

  /**
   * The package is built exactly when every artifact can be statted; it then holds
   * one active entry per artifact, in order, carrying the artifact's path, extra
   * data, remote id and socket key, its status, and the k-th drawn identifier.
   */
  lemma {:induction false} SelectedPackageSpec(files: seq<FilePath>, host: Host)
    ensures SelectedPackage(files, host).Some? <==>
      forall k :: 0 <= k < |files| ==> host.statSync(files[k].fullpath).Some?
    ensures SelectedPackage(files, host).Some? ==>
      var entries := SelectedPackage(files, host).value;
      && |entries| == |files|
      && forall k :: 0 <= k < |files| ==>
           DescribesEntry(entries[k], files[k], host.statSync(files[k].fullpath).value, host.freshId(k), host)
    decreases |files|
  {
    if files != [] {
      var init := files[..|files| - 1];
      SelectedPackageSpec(init, host);
      assert forall k :: 0 <= k < |init| ==> init[k] == files[k];
    }
  }

  /** `activeFile(fileId, isActive = true)`: an omitted flag activates the file. */
  function ActiveFileAction(fileId: Num, isActive: Option<bool>): (a: Action)
    ensures a.ActiveFile? && a.fileId == fileId
    ensures a.isActive <==> isActive != Some(false)
  {
    ActiveFile(fileId, if isActive.Some? then isActive.value else true)
  }
}
