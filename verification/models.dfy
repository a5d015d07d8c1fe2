/**
  The stored records of compilator_8_bit/compiler/models.py and the text
  their `__str__` methods produce.  Foreign keys are kept as ids; the lookup
  tables `SectionType` and `SectionStatus` are kept as their unique names.
  Timestamps are not modelled.
*/
module Models {
  import opened Wrappers
  import opened Text

  /** A folder; `parentId` is `None` for a root folder (the column is nullable). */
  datatype Folder = Folder(
    id: nat, name: string, description: string, user: nat,
    enabled: bool, parentId: Option<int>)

  /** A source file, in the folder with id `folderId`. */
  datatype File = File(
    id: nat, name: string, description: string, user: nat,
    enabled: bool, folderId: nat, sourceCode: string)

  /**
    A section of the file with id `fileId`: the closed line range
    `startLine..endLine`, the name of its `SectionType`, the name of its
    `SectionStatus` (nullable), the accumulated `status_data` text and the
    snapshot of its lines.
  */
  datatype Section = Section(
    id: nat, name: string, description: string, fileId: nat,
    startLine: int, endLine: int, sectionType: string,
    sectionStatus: Option<string>, statusData: string, sourceCode: seq<string>)

  /** How an f-string shows a nullable integer: `None` or the number. */
  function NullableIntText(v: Option<int>): string {
    if v.None? then "None" else IntToString(v.value)
  }

  /** `Folder.__str__`: `"{id} {name} (parent_id {parent_id})"`. */
  function FolderText(f: Folder): string {
    NatToString(f.id) + " " + f.name + " (parent_id " + NullableIntText(f.parentId) + ")"
  }

  /** `File.__str__`: `"{id} {name} (folder {folder})"`, where the folder shows its own `__str__`. */
  function FileText(file: File, folder: Folder): string
    requires folder.id == file.folderId
  {
    NatToString(file.id) + " " + file.name + " (folder " + FolderText(folder) + ")"
  }

  /** `Section.__str__`: `"{id}, file: {file.name}, {file.id} (lines {start} - {end}), {type}"`. */
  function SectionText(s: Section, file: File): string
    requires file.id == s.fileId
  {
    NatToString(s.id) + ", file: " + file.name + ", " + NatToString(file.id)
      + " (lines " + IntToString(s.startLine) + " - " + IntToString(s.endLine) + "), " + s.sectionType
  }

  /** The number a text starts with, as `int` reads its leading digit run. */
  function LeadingNumber(s: string): nat {
    DigitsValue(LeadingDigits(s))
  }

  /** The text of a record starts with its id, followed by a separator that is not a digit. */
  lemma IdReadBack(id: nat, rest: string)
    requires rest != [] && !IsDigit(rest[0])
    ensures LeadingNumber(NatToString(id) + rest) == id
  {
    NatPrefixDigits(id, rest);
    NatToStringRoundTrip(id);
  }

  /** A folder's text starts with its id, so the id can be read back from it. */
  lemma FolderTextId(f: Folder)
    ensures LeadingNumber(FolderText(f)) == f.id
  {
    var rest := " " + f.name + " (parent_id " + NullableIntText(f.parentId) + ")";
    assert FolderText(f) == NatToString(f.id) + rest;
    IdReadBack(f.id, rest);
  }

  /** A file's text starts with its id and ends with its folder's text in parentheses. */
  lemma FileTextParts(file: File, folder: Folder)
    requires folder.id == file.folderId
    ensures LeadingNumber(FileText(file, folder)) == file.id
    ensures EndsWith(FileText(file, folder), FolderText(folder) + ")")
  {
    var head := " " + file.name + " (folder ";
    var rest := head + FolderText(folder) + ")";
    assert FileText(file, folder) == NatToString(file.id) + rest;
    IdReadBack(file.id, rest);
    assert FileText(file, folder) == (NatToString(file.id) + head) + (FolderText(folder) + ")");
  }

  /** A section's text starts with its id and ends with the name of its type. */
  lemma SectionTextParts(s: Section, file: File)
    requires file.id == s.fileId
    ensures LeadingNumber(SectionText(s, file)) == s.id
    ensures EndsWith(SectionText(s, file), "), " + s.sectionType)
  {
    var middle := ", file: " + file.name + ", " + NatToString(file.id)
      + " (lines " + IntToString(s.startLine) + " - " + IntToString(s.endLine);
    var rest := middle + "), " + s.sectionType;
    assert SectionText(s, file) == NatToString(s.id) + rest;
    IdReadBack(s.id, rest);
    assert SectionText(s, file) == (NatToString(s.id) + middle) + ("), " + s.sectionType);
  }
}
