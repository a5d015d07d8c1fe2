/**
  The file and folder stores of compilator_8_bit/compiler/api/file.py and
  compilator_8_bit/compiler/api/folder.py.  A table is a sequence of
  records in store order; a lookup by primary key that finds nothing is the
  `DoesNotExist` error.  Saving a new record gives it the next id.
*/
module Files {
  import opened Wrappers
  import opened Text
  import opened Models

  const PARENT_DISABLED_MESSAGE: string := "Parent folder is disabled."

  datatype StoreError = DoesNotExist | ParentDisabled

  /** The position of the first record whose id is `id` (`objects.get(id=id)`), or -1. */
  function IdPosition<T>(records: seq<T>, idOf: T -> int, id: int): (k: int)
    ensures -1 <= k < |records|
    ensures k >= 0 ==> idOf(records[k]) == id && forall j :: 0 <= j < k ==> idOf(records[j]) != id
    ensures k < 0 <==> forall j :: 0 <= j < |records| ==> idOf(records[j]) != id
  {
    if records == [] then -1
    else if idOf(records[0]) == id then 0
    else
      var k := IdPosition(records[1..], idOf, id);
      assert forall j :: 1 <= j < |records| ==> records[j] == records[1..][j - 1];
      if k < 0 then -1 else k + 1
  }

  function FolderId(f: Folder): int { f.id }

  function FileId(f: File): int { f.id }

  /** The position of the folder with id `id`, or -1. */
  function FolderIndex(folders: seq<Folder>, id: int): int {
    IdPosition(folders, FolderId, id)
  }

  /** The position of the file with id `id`, or -1. */
  function FileIndex(files: seq<File>, id: int): int {
    IdPosition(files, FileId, id)
  }

  /** Every id is below `nextId`, so the next saved record gets an unused id. */
  predicate FolderIdsBelow(folders: seq<Folder>, nextId: nat) {
    forall k :: 0 <= k < |folders| ==> folders[k].id < nextId
  }

  predicate FileIdsBelow(files: seq<File>, nextId: nat) {
    forall k :: 0 <= k < |files| ==> files[k].id < nextId
  }

  /** No two records share an id. */
  predicate UniqueFolderIds(folders: seq<Folder>) {
    forall i, j :: 0 <= i < j < |folders| ==> folders[i].id != folders[j].id
  }

  predicate UniqueFileIds(files: seq<File>) {
    forall i, j :: 0 <= i < j < |files| ==> files[i].id != files[j].id
  }

  // ---------------------------------------------------------------------
  // Lines of a file

  /** `get_source_code_splitted`: the text split on newlines. */
  function SourceLines(source: string): (lines: seq<string>)
    ensures lines != []
  {
    Split(source, "\n")
  }

  /** The text split into lines joins back to itself, and no line holds a newline. */
  lemma SourceLinesRoundTrip(source: string)
    ensures Join(SourceLines(source), "\n") == source
    ensures forall line :: line in SourceLines(source) ==> '\n' !in line
  {
    JoinSplit(source, "\n");
    SplitPiecesAvoidSeparator(source, '\n');
  }

  /** The text `delete_section` leaves: the lines with `del splitted[start - 1:end]` applied, re-joined. */
  function DeleteLines(source: string, start: int, end: int): string {
    Join(PyDeleteSlice(SourceLines(source), start - 1, end), "\n")
  }

  /** The lines that survive deleting lines `start..end` (1-based, inclusive, clipped to the file). */
  function Survivors(lines: seq<string>, start: nat, end: nat): seq<string>
    requires start >= 1
  {
    var e := if end < |lines| then end else |lines|;
    if start - 1 < e then lines[..start - 1] + lines[e..] else lines
  }

  /**
    For `1 <= start`, `delete_section` removes exactly lines `start..end`
    (clipped to the end of the file), keeping the others in order; splitting
    the new text gives back exactly the surviving lines, or the single empty
    line when none survive.  A start beyond the last line changes nothing.
  */
  lemma DeleteLinesEffect(source: string, start: nat, end: nat)
    requires start >= 1
    ensures var lines := SourceLines(source);
      PyDeleteSlice(lines, start - 1, end) == Survivors(lines, start, end)
    ensures var survivors := Survivors(SourceLines(source), start, end);
      && (survivors != [] ==> SourceLines(DeleteLines(source, start, end)) == survivors)
      && (survivors == [] ==> DeleteLines(source, start, end) == "")
    ensures start > |SourceLines(source)| ==> DeleteLines(source, start, end) == source
  {
    var lines := SourceLines(source);
    var survivors := Survivors(lines, start, end);
    SourceLinesRoundTrip(source);
    if survivors != [] {
      forall p | p in survivors ensures '\n' !in p {
        assert p in lines;
      }
      SplitJoin(survivors, '\n');
    }
  }

  /** How many lines `delete_section` removes: those of `start..end` that exist. */
  lemma DeleteLinesCount(source: string, start: nat, end: nat)
    requires 1 <= start <= end
    ensures var n := |SourceLines(source)|;
      |Survivors(SourceLines(source), start, end)| ==
        n - (if start > n then 0 else (if end < n then end else n) - start + 1)
  {
  }

  // ---------------------------------------------------------------------
  // FileApi

  /** The fields `FileApi.create` reads from its `data` dictionary. */
  datatype FileData = FileData(
    name: string, description: Option<string>, folderId: int, user: nat, sourceCode: string)

  class FileApi {
    var files: seq<File>
    var nextId: nat
    /** The folder table, which the file operations read but never change. */
    const folders: seq<Folder>

    ghost predicate Valid()
      reads this
    {
      FileIdsBelow(files, nextId) && UniqueFileIds(files)
    }

    constructor (files: seq<File>, nextId: nat, folders: seq<Folder>)
      requires FileIdsBelow(files, nextId) && UniqueFileIds(files)
      ensures Valid()
      ensures this.files == files && this.nextId == nextId && this.folders == folders
    {
      this.files := files;
      this.nextId := nextId;
      this.folders := folders;
    }

    /** `get_source_code_splitted(id)`: the lines of the file, or `DoesNotExist`. */
    method GetSourceCodeSplitted(id: int) returns (r: Result<seq<string>, StoreError>)
      ensures var k := FileIndex(files, id);
        && (k < 0 <==> r == Failure(DoesNotExist))
        && (k >= 0 ==> r == Success(SourceLines(files[k].sourceCode)) && Join(r.value, "\n") == files[k].sourceCode)
    {
      var k := FileIndex(files, id);
      if k < 0 {
        return Failure(DoesNotExist);
      }
      SourceLinesRoundTrip(files[k].sourceCode);
      return Success(SourceLines(files[k].sourceCode));
    }

    /**
      `create(data)`: the folder must exist and be enabled; the new file is
      enabled, has description `""` unless one is given, and gets the next id.
    */
    method Create(data: FileData) returns (r: Result<nat, StoreError>)
      requires Valid()
      modifies this
      ensures Valid()
      ensures var k := FolderIndex(folders, data.folderId);
        && (k < 0 ==> r == Failure(DoesNotExist))
        && (k >= 0 && !folders[k].enabled ==> r == Failure(ParentDisabled))
        && (r.Success? <==> k >= 0 && folders[k].enabled)
      ensures r.Failure? ==> files == old(files) && nextId == old(nextId)
      ensures r.Success? ==>
        && r.value == old(nextId) && nextId == old(nextId) + 1
        && files == old(files) + [File(r.value, data.name,
             if data.description.Some? then data.description.value else "",
             data.user, true, data.folderId as nat, data.sourceCode)]
    {
      var k := FolderIndex(folders, data.folderId);
      if k < 0 {
        return Failure(DoesNotExist);
      }
      if !folders[k].enabled {
        return Failure(ParentDisabled);
      }
      var description := if data.description.Some? then data.description.value else "";
      var file := File(nextId, data.name, description, data.user, true, folders[k].id, data.sourceCode);
      files := files + [file];
      r := Success(nextId);
      nextId := nextId + 1;
    }

    /** `delete(id)`: a soft delete; the file stays, disabled. */
    method Delete(id: int) returns (r: Option<StoreError>)
      requires Valid()
      modifies this
      ensures Valid() && nextId == old(nextId)
      ensures var k := FileIndex(old(files), id);
        && (k < 0 ==> r == Some(DoesNotExist) && files == old(files))
        && (k >= 0 ==> r.None? && files == old(files)[k := old(files)[k].(enabled := false)])
    {
      var k := FileIndex(files, id);
      if k < 0 {
        return Some(DoesNotExist);
      }
      files := files[k := files[k].(enabled := false)];
      r := None;
    }

    /** `delete_section(id, start_line, end_line)`: removes those lines from the file's text. */
    method DeleteSection(id: int, startLine: int, endLine: int) returns (r: Option<StoreError>)
      requires Valid()
      modifies this
      ensures Valid() && nextId == old(nextId)
      ensures var k := FileIndex(old(files), id);
        && (k < 0 ==> r == Some(DoesNotExist) && files == old(files))
        && (k >= 0 ==> r.None? && files == old(files)[k := old(files)[k].(
              sourceCode := DeleteLines(old(files)[k].sourceCode, startLine, endLine))])
    {
      var k := FileIndex(files, id);
      if k < 0 {
        return Some(DoesNotExist);
      }
      var splitted := SourceLines(files[k].sourceCode);
      splitted := PyDeleteSlice(splitted, startLine - 1, endLine);
      files := files[k := files[k].(sourceCode := Join(splitted, "\n"))];
      r := None;
    }
  }

  // ---------------------------------------------------------------------
  // FolderApi

  /** The fields `FolderApi.create` reads from its `data` dictionary. */
  datatype FolderData = FolderData(name: string, description: Option<string>, parentId: int, user: nat)

  /** The parent a new folder records: none for `parent_id == 0`. */
  function StoredParent(parentId: int): (p: Option<int>)
    ensures p.None? <==> parentId == 0
    ensures p.Some? ==> p.value == parentId
  {
    if parentId == 0 then None else Some(parentId)
  }

  class FolderApi {
    var folders: seq<Folder>
    var nextId: nat

    ghost predicate Valid()
      reads this
    {
      FolderIdsBelow(folders, nextId) && UniqueFolderIds(folders)
    }

    constructor (folders: seq<Folder>, nextId: nat)
      requires FolderIdsBelow(folders, nextId) && UniqueFolderIds(folders)
      ensures Valid() && this.folders == folders && this.nextId == nextId
    {
      this.folders := folders;
      this.nextId := nextId;
    }

    /**
      `create(data)`: parent id 0 makes a root folder; any other parent must
      exist and be enabled.  Answers the new id, name and stored parent id.
    */
    method Create(data: FolderData) returns (r: Result<(nat, string, Option<int>), StoreError>)
      requires Valid()
      modifies this
      ensures Valid()
      ensures var k := FolderIndex(old(folders), data.parentId);
        && (data.parentId != 0 && k < 0 ==> r == Failure(DoesNotExist))
        && (data.parentId != 0 && k >= 0 && !old(folders)[k].enabled ==> r == Failure(ParentDisabled))
        && (r.Success? <==> data.parentId == 0 || (k >= 0 && old(folders)[k].enabled))
      ensures r.Failure? ==> folders == old(folders) && nextId == old(nextId)
      ensures r.Success? ==>
        && r.value == (old(nextId), data.name, StoredParent(data.parentId))
        && nextId == old(nextId) + 1
        && folders == old(folders) + [Folder(old(nextId), data.name,
             if data.description.Some? then data.description.value else "",
             data.user, true, StoredParent(data.parentId))]
    {
      var parentId: Option<int> := None;
      if data.parentId != 0 {
        var k := FolderIndex(folders, data.parentId);
        if k < 0 {
          return Failure(DoesNotExist);
        }
        if !folders[k].enabled {
          return Failure(ParentDisabled);
        }
        parentId := Some(data.parentId);
      }
      var description := if data.description.Some? then data.description.value else "";
      var folder := Folder(nextId, data.name, description, data.user, true, parentId);
      folders := folders + [folder];
      r := Success((folder.id, folder.name, folder.parentId));
      nextId := nextId + 1;
    }

    /** `delete(id)`: a soft delete; the folder stays, disabled. */
    method Delete(id: int) returns (r: Option<StoreError>)
      requires Valid()
      modifies this
      ensures Valid() && nextId == old(nextId)
      ensures var k := FolderIndex(old(folders), id);
        && (k < 0 ==> r == Some(DoesNotExist) && folders == old(folders))
        && (k >= 0 ==> r.None? && folders == old(folders)[k := old(folders)[k].(enabled := false)])
    {
      var k := FolderIndex(folders, id);
      if k < 0 {
        return Some(DoesNotExist);
      }
      folders := folders[k := folders[k].(enabled := false)];
      r := None;
    }
  }
}
