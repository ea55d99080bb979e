/**
 * The state behind the launcher dialog: which task the operator picked, the
 * report files chosen for it, the file name shown on a picker button, and the
 * check that the files a task needs have been chosen.
 */
module Gui {
  import opened Wrappers

  /** Python's `s[::-1]`. */
  function Reverse(s: string): (r: string)
    ensures |r| == |s|
    ensures forall i :: 0 <= i < |s| ==> r[i] == s[|s| - 1 - i]
  {
    seq(|s|, i requires 0 <= i < |s| => s[|s| - 1 - i])
  }

  /** Python's `s.index(c)`: the first position of `c`, or None where Python raises ValueError. */
  function IndexOf(s: string, c: char): (r: Option<nat>)
    ensures r.None? <==> c !in s
    ensures r.Some? ==> r.value < |s| && s[r.value] == c && c !in s[..r.value]
  {
    if s == [] then None
    else if s[0] == c then Some(0)
    else
      match IndexOf(s[1..], c)
      case None => None
      case Some(n) =>
        assert s[..n + 1] == [s[0]] + s[1..][..n];
        Some(n + 1)
  }

  /**
   * getFileNameFromPath (gui.py:115-119): reverse the path, cut it at the
   * first '/', reverse the piece back. A path without '/' raises ValueError
   * (None here).
   */
  function FileNameFromPath(path: string): Option<string> {
    var rev := Reverse(path);
    match IndexOf(rev, '/')
    case None => None
    case Some(n) => Some(Reverse(rev[..n]))
  }

  /**
   * The file name is what follows the last '/': it holds no '/', and the path
   * is some prefix, a '/', then the name. Without a '/' there is no name.
   */
  lemma FileNameFromPathSpec(path: string)
    ensures FileNameFromPath(path).None? <==> '/' !in path
    ensures FileNameFromPath(path).Some? ==>
      var name := FileNameFromPath(path).value;
      '/' !in name && |name| < |path| && path == path[..|path| - |name| - 1] + "/" + name
  {
    var rev := Reverse(path);
    if '/' in path {
      var k :| 0 <= k < |path| && path[k] == '/';
      assert rev[|path| - 1 - k] == '/';
    }
    if '/' in rev {
      var k :| 0 <= k < |rev| && rev[k] == '/';
      assert path[|path| - 1 - k] == '/';
    }
    match IndexOf(rev, '/')
    case None =>
    case Some(n) =>
      var name := Reverse(rev[..n]);
      assert name == path[|path| - n..] by {
        forall i | 0 <= i < n ensures name[i] == path[|path| - n + i] {
          assert name[i] == rev[n - 1 - i];
        }
      }
      forall i | 0 <= i < |name| ensures name[i] != '/' {
        assert name[i] == rev[..n][n - 1 - i];
      }
      assert path[|path| - n - 1] == rev[n];
      assert path == path[..|path| - n - 1] + [path[|path| - n - 1]] + path[|path| - n..];
  }

  /** A path ending in '/' gives the empty name. */
  lemma TrailingSlashGivesEmptyName(path: string)
    requires |path| > 0 && path[|path| - 1] == '/'
    ensures FileNameFromPath(path) == Some("")
  {
    assert Reverse(path)[0] == '/';
  }

  const DataUpload := "Salesforce data upload"
  const FindDuplicates := "Find Salesforce duplicates"
  const FindIncomplete := "Find incomplete rescue data"
  const FindDiscrepancies := "Find rescue discrepancies"
  const CreateAccounts := "Create new Salesforce accounts and contacts"

  /** The labels of the five task radio buttons (gui.py:150-158). */
  predicate IsMode(name: string) {
    name == DataUpload || name == FindDuplicates || name == FindIncomplete
    || name == FindDiscrepancies || name == CreateAccounts
  }

  /**
   * checkFilePickersLoaded (gui.py:227-246) as written, on the dialog's
   * fields. Python parses line 231 as `file1 or file2 or file3 or (file4 == "")`
   * and line 243 likewise, and the test at line 237 is `(... == ...) or
   * "Find rescue discrepancies"`, a non-empty string and so always true; None
   * is the implicit return after the last branch.
   */
  function FilesLoadedAsWritten(whatToDo: string, file1: string, file2: string, file3: string, file4: string): Option<bool> {
    if whatToDo == DataUpload then
      Some(!(file1 != "" || file2 != "" || file3 != "" || file4 == ""))
    else if whatToDo == FindDuplicates then Some(true)
    else if whatToDo == FindIncomplete || FindDiscrepancies != "" then Some(file1 != "")
    else if whatToDo == CreateAccounts then Some(!(file1 != "" || file2 != "" || file3 == ""))
    else None
  }

  /**
   * As written, the check always answers; in the upload task it passes only
   * when the first three files are missing and the fourth is chosen; the
   * duplicates task passes whatever the files; in every other task it looks
   * at the first file alone.
   */
  lemma FilesLoadedAsWrittenSpec(whatToDo: string, file1: string, file2: string, file3: string, file4: string)
    ensures FilesLoadedAsWritten(whatToDo, file1, file2, file3, file4).Some?
    ensures whatToDo == DataUpload ==>
      (FilesLoadedAsWritten(whatToDo, file1, file2, file3, file4) == Some(true) <==>
        file1 == "" && file2 == "" && file3 == "" && file4 != "")
    ensures whatToDo == FindDuplicates ==> FilesLoadedAsWritten(whatToDo, file1, file2, file3, file4) == Some(true)
    ensures whatToDo != DataUpload && whatToDo != FindDuplicates ==>
      FilesLoadedAsWritten(whatToDo, file1, file2, file3, file4) == Some(file1 != "")
  {
    assert FindDiscrepancies != "" by {
      assert |FindDiscrepancies| > 0;
    }
  }

  /** With all four reports chosen, the upload task is refused as written. */
  lemma UploadWithAllFilesRefused()
    ensures FilesLoadedAsWritten(DataUpload, "donors.csv", "partners.csv", "volunteers.csv", "rescues.csv") == Some(false)
  {
  }

  /** With only the donors report chosen, the account-creation task is accepted as written. */
  lemma CreateAccountsWithOneFileAccepted()
    ensures FilesLoadedAsWritten(CreateAccounts, "donors.csv", "", "", "") == Some(true)
  {
    FilesLoadedAsWrittenSpec(CreateAccounts, "donors.csv", "", "", "");
    assert CreateAccounts != DataUpload by {
      assert CreateAccounts[0] != DataUpload[0];
    }
    assert CreateAccounts != FindDuplicates by {
      assert CreateAccounts[0] != FindDuplicates[0];
    }
  }

  /** How many report files each task reads (the comments at gui.py:150-158 and 230-242). */
  function FilesNeeded(whatToDo: string): nat {
    if whatToDo == DataUpload then 4
    else if whatToDo == FindDuplicates then 0
    else if whatToDo == FindIncomplete || whatToDo == FindDiscrepancies then 1
    else if whatToDo == CreateAccounts then 3
    else 0
  }

  /** The check as intended: a known task, with every report it reads chosen. */
  function RequiredFilesLoaded(whatToDo: string, file1: string, file2: string, file3: string, file4: string): (ok: bool)
    ensures ok <==> (IsMode(whatToDo) &&
      forall i :: 0 <= i < FilesNeeded(whatToDo) ==> [file1, file2, file3, file4][i] != "")
  {
    var files := [file1, file2, file3, file4];
    assert files[0] == file1 && files[1] == file2 && files[2] == file3 && files[3] == file4;
    if whatToDo == DataUpload then file1 != "" && file2 != "" && file3 != "" && file4 != ""
    else if whatToDo == FindDuplicates then true
    else if whatToDo == FindIncomplete || whatToDo == FindDiscrepancies then file1 != ""
    else if whatToDo == CreateAccounts then file1 != "" && file2 != "" && file3 != ""
    else false
  }

  /** The upload task with all four reports chosen passes the intended check. */
  lemma UploadWithAllFilesAccepted()
    ensures RequiredFilesLoaded(DataUpload, "donors.csv", "partners.csv", "volunteers.csv", "rescues.csv")
  {
  }

  /** The account-creation task with only the donors report chosen fails the intended check. */
  lemma CreateAccountsWithOneFileRefused()
    ensures !RequiredFilesLoaded(CreateAccounts, "donors.csv", "", "", "")
  {
    var files: seq<string> := ["donors.csv", "", "", ""];
    assert files[1] == "";
  }

  /** Which file picker was clicked: one of the four file buttons, or none. */
  datatype Picker = NoButton | FileButton(index: int)

  /** getFileNameFromPath's ValueError: the chosen path holds no '/'. */
  datatype PickerError = NoFileName(path: string)

  /** The dialog's own fields (gui.py:18-22). */
  class Dialog {
    var whatToDo: string
    var file1: string
    var file2: string
    var file3: string
    var file4: string

    constructor()
      ensures whatToDo == "" && file1 == "" && file2 == "" && file3 == "" && file4 == ""
    {
      whatToDo, file1, file2, file3, file4 := "", "", "", "", "";
    }

    /** checkFilePickersLoaded as written. */
    function CheckFilePickersLoaded(): (r: Option<bool>)
      reads this
      ensures r.Some?
    {
      FilesLoadedAsWrittenSpec(whatToDo, file1, file2, file3, file4);
      FilesLoadedAsWritten(whatToDo, file1, file2, file3, file4)
    }

    /** The check the dialog is meant to make. */
    predicate FilesLoaded()
      reads this
    {
      RequiredFilesLoaded(whatToDo, file1, file2, file3, file4)
    }

    /**
     * onRadioButtonClick (gui.py:174-219): `button.isChecked` is a bound
     * method and so always true, so every toggle, checking or unchecking,
     * clears the four chosen files; a known label becomes the task.
     */
    method OnRadioButtonClick(buttonName: string)
      modifies this
      ensures file1 == "" && file2 == "" && file3 == "" && file4 == ""
      ensures whatToDo == if IsMode(buttonName) then buttonName else old(whatToDo)
      ensures IsMode(buttonName) ==> (FilesLoaded() <==> buttonName == FindDuplicates)
    {
      file1, file2, file3, file4 := "", "", "", "";
      if buttonName == DataUpload {
        whatToDo := DataUpload;
      } else if buttonName == FindDuplicates {
        whatToDo := FindDuplicates;
      } else if buttonName == FindIncomplete {
        whatToDo := FindIncomplete;
      } else if buttonName == FindDiscrepancies {
        whatToDo := FindDiscrepancies;
      } else if buttonName == CreateAccounts {
        whatToDo := CreateAccounts;
      }
    }

    /**
     * filePicker (gui.py:97-113), with the file dialog's answer as a
     * parameter (None when the operator cancels). For a clicked button the
     * name shown on it is computed first (gui.py:101-102), and a path without
     * '/' makes that raise before anything is stored. Otherwise a chosen file
     * is stored for the clicked button only and returned; a cancel returns "".
     */
    method FilePicker(button: Picker, picked: Option<string>) returns (r: Result<string, PickerError>)
      modifies this
      ensures r.Err? <==> picked.Some? && button != NoButton && FileNameFromPath(picked.value).None?
      ensures r.Err? ==> picked.Some? && r.error == NoFileName(picked.value)
      ensures r.Ok? ==> r.value == if picked.Some? then picked.value else ""
      ensures whatToDo == old(whatToDo)
      ensures file1 == if r.Ok? && picked.Some? && button == FileButton(1) then picked.value else old(file1)
      ensures file2 == if r.Ok? && picked.Some? && button == FileButton(2) then picked.value else old(file2)
      ensures file3 == if r.Ok? && picked.Some? && button == FileButton(3) then picked.value else old(file3)
      ensures file4 == if r.Ok? && picked.Some? && button == FileButton(4) then picked.value else old(file4)
    {
      if picked.None? {
        return Ok("");
      }
      var file := picked.value;
      if button != NoButton && FileNameFromPath(file).None? {
        return Err(NoFileName(file));
      }
      if button == FileButton(1) {
        file1 := file;
      } else if button == FileButton(2) {
        file2 := file;
      } else if button == FileButton(3) {
        file3 := file;
      } else if button == FileButton(4) {
        file4 := file;
      }
      r := Ok(file);
    }
  }
}
