/** The configuration file on disk: `atomicWriteBytes` and `ConfigChanged` in file_manager.go.

    Readers see the current files. A crash may lose more: of a file that was not synced only a part may
    be on disk, and a directory update that was not synced may be undone. The code syncs the temp file
    before it renames it and never syncs the directory.
 */
module FileManager {
  import opened Wrappers
  import opened Records

  datatype File = File(bytes: Bytes, synced: bool)

  /** The files as readers find them, and for each path the entries that a crash may bring back. */
  datatype Fs = Fs(files: map<string, File>, earlier: map<string, set<Option<File>>>)

  function Entry(fs: Fs, path: string): Option<File> {
    if path in fs.files then Some(fs.files[path]) else None
  }

  function Earlier(fs: Fs, path: string): set<Option<File>> {
    if path in fs.earlier then fs.earlier[path] else {}
  }

  /** A change of the directory. */
  function SetEntry(fs: Fs, path: string, e: Option<File>): Fs {
    Fs(if e.Some? then fs.files[path := e.value] else fs.files - {path},
       fs.earlier[path := Earlier(fs, path) + {Entry(fs, path)}])
  }

  function Rename(fs: Fs, from: string, to: string): Fs {
    SetEntry(SetEntry(fs, to, Entry(fs, from)), from, None)
  }

  function SetFile(fs: Fs, path: string, file: File): Fs {
    fs.(files := fs.files[path := file])
  }

  function Content(fs: Fs, path: string): Option<Bytes> {
    match Entry(fs, path)
    case Some(file) => Some(file.bytes)
    case None => None
  }

  /** What a crash may make of an entry: any beginning of a file that was not synced. */
  predicate Outcome(e: Option<File>, c: Option<Bytes>) {
    match e
    case None => c.None?
    case Some(file) => c.Some? && (if file.synced then c.value == file.bytes else c.value <= file.bytes)
  }

  /** A crash may leave this content at the path. */
  ghost predicate Survives(fs: Fs, path: string, c: Option<Bytes>) {
    Outcome(Entry(fs, path), c) || exists e :: e in Earlier(fs, path) && Outcome(e, c)
  }

  lemma RenameSurvives(fs: Fs, from: string, to: string, c: Option<Bytes>)
    requires from != to && from in fs.files
    ensures Survives(Rename(fs, from, to), to, c) <==> Survives(fs, to, c) || Outcome(Some(fs.files[from]), c)
  {
    var fs' := Rename(fs, from, to);
    assert Entry(fs', to) == Some(fs.files[from]) && Earlier(fs', to) == Earlier(fs, to) + {Entry(fs, to)};
  }

  /** A crash leaves what it could leave before, or the new file. */
  ghost predicate OldOrNew(before: Fs, after: Fs, path: string, data: Bytes) {
    forall c :: Survives(after, path, c) ==> Survives(before, path, c) || c == Some(data)
  }

  /** Neither a reader nor a crash can tell the two apart at the path. */
  predicate Alike(before: Fs, after: Fs, path: string) {
    Entry(after, path) == Entry(before, path) && Earlier(after, path) == Earlier(before, path)
  }

  lemma AlikeSurvives(before: Fs, after: Fs, path: string, data: Bytes)
    requires Alike(before, after, path)
    ensures OldOrNew(before, after, path, data)
    ensures forall c :: Survives(after, path, c) <==> Survives(before, path, c)
  {
  }

  lemma PublishedSurvives(before: Fs, fs: Fs, from: string, to: string, data: Bytes)
    requires from != to && Entry(fs, from) == Some(File(data, true)) && Alike(before, fs, to)
    ensures OldOrNew(before, Rename(fs, from, to), to, data)
    ensures forall c :: Survives(Rename(fs, from, to), to, c) <==> Survives(before, to, c) || c == Some(data)
  {
    AlikeSurvives(before, fs, to, data);
    forall c { RenameSurvives(fs, from, to, c); }
  }

  /** Publishing a file by renaming it is safe against a crash exactly when the file was synced, or is
      empty, unless an empty file could be left there before. */
  lemma PublishSafeIff(fs: Fs, from: string, to: string)
    requires from != to && from in fs.files && !Survives(fs, to, Some(""))
    ensures OldOrNew(fs, Rename(fs, from, to), to, fs.files[from].bytes) <==>
            fs.files[from].synced || fs.files[from].bytes == ""
  {
    forall c { RenameSurvives(fs, from, to, c); }
    var empty: Option<Bytes> := Some("");
    assert !fs.files[from].synced ==> Outcome(Some(fs.files[from]), empty);
  }

  /** Which step of the write fails; `keep` bytes reach the temp file when the write itself does. */
  datatype WriteFaults = WriteFaults(mkdir: bool, create: bool, write: bool, keep: nat, sync: bool,
                                     close: bool, chmod: bool, rename: bool, remove: bool)
  {
    predicate Any() {
      mkdir || create || write || sync || close || chmod || rename
    }
  }

  class Disk {
    var fs: Fs

    constructor ()
      ensures fs == Fs(map[], map[])
    {
      fs := Fs(map[], map[]);
    }

    /** `atomicWriteBytes`; a temp name in use makes its exclusive creation fail. `seen` is the disk after
        each step: readers find the old file or all of the new one, a crash leaves what it could leave
        before or all of the new one. After a success it may still leave the old one. */
    method AtomicWriteBytes(path: string, temp: string, data: Bytes, f: WriteFaults)
      returns (ok: bool, ghost seen: seq<Fs>)
      requires temp != path
      modifies this
      ensures ok <==> !f.Any() && temp !in old(fs.files)
      ensures ok ==> fs.files == old(fs.files)[path := File(data, true)]
      ensures !ok ==> fs.files == old(fs.files) || (f.remove && fs.files - {temp} == old(fs.files))
      ensures Content(fs, path) == if ok then Some(data) else old(Content(fs, path))
      ensures forall c :: Survives(fs, path, c) <==> Survives(old(fs), path, c) || (ok && c == Some(data))
      ensures forall k :: 0 <= k < |seen| ==> Content(seen[k], path) in {old(Content(fs, path)), Some(data)}
      ensures forall k :: 0 <= k < |seen| ==> OldOrNew(old(fs), seen[k], path, data)
    {
      ghost var before := fs;
      AlikeSurvives(before, before, path, data);
      if f.mkdir || f.create || temp in fs.files {
        return false, [fs];
      }
      ok, seen := FillTemp(path, temp, data, f);
      forall k | 0 <= k < |seen| ensures OldOrNew(before, seen[k], path, data) {
        AlikeSurvives(before, seen[k], path, data);
      }
      if !ok || f.close || f.chmod || f.rename {
        if !f.remove {
          fs := SetEntry(fs, temp, None);
        }
        AlikeSurvives(before, fs, path, data);
        return false, seen + [fs];
      }
      PublishedSurvives(before, fs, temp, path, data);
      fs := Rename(fs, temp, path);
      return true, seen + [fs];
    }

    /** The temp file: create, write, sync. All of it happens out of sight of the path. */
    method FillTemp(path: string, temp: string, data: Bytes, f: WriteFaults) returns (ok: bool, ghost seen: seq<Fs>)
      requires temp != path && temp !in fs.files
      modifies this
      ensures ok <==> !f.write && !f.sync
      ensures fs.files - {temp} == old(fs.files)
      ensures ok ==> Entry(fs, temp) == Some(File(data, true))
      ensures Alike(old(fs), fs, path) && forall k :: 0 <= k < |seen| ==> Alike(old(fs), seen[k], path)
    {
      fs := SetEntry(fs, temp, Some(File("", false)));
      seen := [old(fs), fs];
      fs := SetFile(fs, temp, File(if f.write then Beginning(data, f.keep) else data, false));
      seen := seen + [fs];
      if f.write || f.sync {
        return false, seen;
      }
      fs := SetFile(fs, temp, fs.files[temp].(synced := true));
      return true, seen + [fs];
    }

    /** `ConfigChanged`: a missing file counts as changed; None is a read error. */
    method ConfigChanged(path: string, newData: Bytes, readFails: bool) returns (changed: Option<bool>)
      ensures changed.None? <==> readFails
      ensures changed.Some? ==> (changed.value <==> Content(fs, path) != Some(newData))
    {
      if readFails {
        return None;
      }
      if path !in fs.files {
        return Some(true);
      }
      return Some(fs.files[path].bytes != newData);
    }
  }

  function Beginning(data: Bytes, keep: nat): Bytes { data[..if keep < |data| then keep else |data|] }

  datatype WriteCall = WriteCall(temp: string, data: Bytes, faults: WriteFaults)

  /** Over any sequence of writes, whatever fails: a crash at the end leaves what it could leave at the
      start or all of the data of some write that succeeded, and each of these is possible. Readers find
      the data of the latest of them. */
  method WriteAll(d: Disk, path: string, calls: seq<WriteCall>) returns (oks: seq<bool>)
    requires forall i :: 0 <= i < |calls| ==> calls[i].temp != path
    modifies d
    ensures |oks| == |calls|
    ensures forall c :: Survives(d.fs, path, c) <==> Survives(old(d.fs), path, c) || Written(calls, oks, c)
    ensures Content(d.fs, path) == Latest(old(Content(d.fs, path)), calls, oks)
  {
    oks := [];
    for i := 0 to |calls|
      invariant |oks| == i
      invariant forall c :: Survives(d.fs, path, c) <==> Survives(old(d.fs), path, c) || Written(calls[..i], oks, c)
      invariant Content(d.fs, path) == Latest(old(Content(d.fs, path)), calls[..i], oks)
    {
      var ok, _ := d.AtomicWriteBytes(path, calls[i].temp, calls[i].data, calls[i].faults);
      forall c { WrittenNext(calls, oks, ok, i, c); }
      assert calls[..i + 1][..i] == calls[..i] && (oks + [ok])[..i] == oks;
      oks := oks + [ok];
    }
    assert calls[..|calls|] == calls;
  }

  /** The data of the latest successful call. */
  function Latest(first: Option<Bytes>, calls: seq<WriteCall>, oks: seq<bool>): Option<Bytes>
    requires |oks| == |calls|
  {
    var n := |calls|;
    if n == 0 then first
    else if oks[n - 1] then Some(calls[n - 1].data)
    else Latest(first, calls[..n - 1], oks[..n - 1])
  }

  /** Some successful call wrote this content. */
  ghost predicate Written(calls: seq<WriteCall>, oks: seq<bool>, c: Option<Bytes>)
    requires |oks| == |calls|
  {
    exists i :: 0 <= i < |calls| && oks[i] && c == Some(calls[i].data)
  }

  lemma WrittenNext(calls: seq<WriteCall>, oks: seq<bool>, ok: bool, i: nat, c: Option<Bytes>)
    requires i < |calls| && |oks| == i
    ensures Written(calls[..i + 1], oks + [ok], c) <==> Written(calls[..i], oks, c) || (ok && c == Some(calls[i].data))
  {
    var more, all := oks + [ok], calls[..i + 1];
    assert more[i] == ok && all[i] == calls[i];
    assert forall k :: 0 <= k < i ==> more[k] == oks[k] && all[k] == calls[..i][k];
  }
}
