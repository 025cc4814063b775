/**
 * DetailActivity: the result screen. Its companion `getBundle` packs a
 * finished download's {id, status, fileName} into a Bundle; the screen reads
 * the Bundle back into its fields, shows the file name and a
 * "Success"/"Failure" label, and cancels the notification with that id.
 *
 * A Bundle is a map from keys to typed values. Its getters follow the
 * platform's Bundle: getInt gives 0 for a missing key or a value of another
 * type, getString gives null (None) in the same cases.
 */
module DetailScreen {
  import opened Wrappers

  datatype Value = IntValue(i: int) | StringValue(s: string)

  type Bundle = map<string, Value>

  const DownloadIdKey: string := "download_id"
  const DownloadStatusKey: string := "download_status"
  const FileNameKey: string := "file_name"

  /** DownloadManager.STATUS_SUCCESSFUL. */
  const StatusSuccessful: int := 8

  /** Bundle.getInt(key). */
  function GetInt(b: Bundle, key: string): int
  {
    if key in b && b[key].IntValue? then b[key].i else 0
  }

  /** Bundle.getString(key). */
  function GetString(b: Bundle, key: string): Option<string>
  {
    if key in b && b[key].StringValue? then Some(b[key].s) else None
  }

  /** getBundle: a new Bundle filled by three put calls. The three keys
      are pairwise distinct, so no put overwrites another. */
  function GetBundle(id: int, status: int, fileName: string): (b: Bundle)
    ensures b.Keys == {DownloadIdKey, DownloadStatusKey, FileNameKey}
    ensures |b| == 3
  {
    var empty: Bundle := map[];
    var withId := empty[DownloadIdKey := IntValue(id)];
    var withStatus := withId[DownloadStatusKey := IntValue(status)];
    withStatus[FileNameKey := StringValue(fileName)]
  }

  /** The three fields loadBundle assigns when the intent has extras. */
  datatype Extras = Extras(id: int, status: int, fileName: string)

  /** What loadBundle reads from a Bundle: a missing file name becomes "". */
  function ReadExtras(b: Bundle): (e: Extras)
    ensures e.fileName == "" <==> GetString(b, FileNameKey) in {None, Some("")}
    ensures GetString(b, FileNameKey).Some? ==> e.fileName == GetString(b, FileNameKey).value
  {
    var name := GetString(b, FileNameKey);
    Extras(GetInt(b, DownloadIdKey), GetInt(b, DownloadStatusKey),
           if name.Some? then name.value else "")
  }

  /** Reading back what getBundle wrote gives the same id, status and name. */
  lemma ReadGetBundle(id: int, status: int, fileName: string)
    ensures ReadExtras(GetBundle(id, status, fileName)) == Extras(id, status, fileName)
  {
    var b := GetBundle(id, status, fileName);
    assert b[DownloadIdKey] == IntValue(id);
    assert b[DownloadStatusKey] == IntValue(status);
    assert b[FileNameKey] == StringValue(fileName);
  }

  /** A Bundle with no file-name string decodes the name to "". */
  lemma MissingFileNameReadsEmpty(b: Bundle)
    requires FileNameKey !in b || !b[FileNameKey].StringValue?
    ensures ReadExtras(b).fileName == ""
  {
  }

  /** The status label: "Success" exactly for STATUS_SUCCESSFUL; every
      other value, the unset -1 included, reads "Failure". */
  function StatusLabel(status: int): (text: string)
    ensures text == "Success" <==> status == StatusSuccessful
    ensures text == "Failure" <==> status != StatusSuccessful
  {
    if status == StatusSuccessful then "Success" else "Failure"
  }

  /** The texts the screen shows and the notification it cancels. */
  datatype Shown = Shown(fileNameText: string, statusText: string, cancelledNotification: int)

  /** The end of onCreate: the screen shows its texts, or it stops when
      fillContent reads the lateinit fileName before any assignment. */
  datatype Outcome = Displayed(shown: Shown) | UninitializedFileName

  /** What onCreate of a new screen does with the intent's extras. */
  function Open(extras: Option<Bundle>): (o: Outcome)
    ensures extras.None? <==> o.UninitializedFileName?
  {
    match extras
    case None => UninitializedFileName
    case Some(b) =>
      var e := ReadExtras(b);
      Displayed(Shown(e.fileName, StatusLabel(e.status), e.id))
  }

  /** Opening the screen with a Bundle from getBundle shows the name
      unchanged, labels the status, and cancels the notification `id`. */
  lemma OpenGetBundle(id: int, status: int, fileName: string)
    ensures Open(Some(GetBundle(id, status, fileName)))
         == Displayed(Shown(fileName, StatusLabel(status), id))
  {
    ReadGetBundle(id, status, fileName);
  }

  class DetailActivity {
    var id: int
    var status: int
    /** lateinit: None until loadBundle assigns it. */
    var fileName: Option<string>

    constructor ()
      ensures id == -1 && status == -1 && fileName == None
    {
      id := -1;
      status := -1;
      fileName := None;
    }

    /** loadBundle: assigns the three fields only when there are extras. */
    method LoadBundle(extras: Option<Bundle>)
      modifies this
      ensures extras.None? ==> id == old(id) && status == old(status) && fileName == old(fileName)
      ensures extras.Some? ==>
        fileName.Some? && Extras(id, status, fileName.value) == ReadExtras(extras.value)
    {
      if extras.Some? {
        var b := extras.value;
        id := GetInt(b, DownloadIdKey);
        status := GetInt(b, DownloadStatusKey);
        var name := GetString(b, FileNameKey);
        fileName := Some(if name.Some? then name.value else "");
      }
    }

    /** fillContent: the file name unchanged and the status label. It
        needs fileName initialised. */
    method FillContent() returns (fileNameText: string, statusText: string)
      requires fileName.Some?
      ensures fileNameText == fileName.value
      ensures statusText == "Success" <==> status == StatusSuccessful
      ensures statusText == StatusLabel(status)
    {
      fileNameText := fileName.value;
      statusText := StatusLabel(status);
    }

    /** onCreate on a new screen: loadBundle, fillContent, then cancel the
        notification with the loaded id. */
    method OnCreate(extras: Option<Bundle>) returns (o: Outcome)
      requires id == -1 && status == -1 && fileName == None
      modifies this
      ensures o == Open(extras)
      ensures extras.None? ==> id == -1 && status == -1 && fileName == None
    {
      LoadBundle(extras);
      if fileName.None? {
        return UninitializedFileName;
      }
      var fileNameText, statusText := FillContent();
      o := Displayed(Shown(fileNameText, statusText, id));
    }
  }
}
