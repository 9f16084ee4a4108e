/**
 * RemoveTask: asking the daemon to delete a file from tape by writing
 * trash/<id>, which holds the file's tape locator.
 */
module RemoveTasks {
  import opened Wrappers
  import opened Fs
  import opened Failures
  import opened Locators

  datatype RemoveRequest = RemoveRequest(uri: Uri)

  /** call: the id comes from the locator's bfid; the marker file holds the locator's text. */
  function CallStep(trashDir: Path, request: RemoveRequest, fs: Tree): (Result<(), Failure>, Tree)
  {
    match GetPnfsId(request.uri)
    case Err(e) => (Err(e), fs)
    case Ok(id) =>
      var (w, fs1) := WriteStep(fs, Resolve(trashDir, id), ToAscii(request.uri));
      if w.Err? then (Err(IO(w.error)), fs1) else (Ok(()), fs1)
  }

  /**
   * A locator the id cannot be taken from is rejected and nothing is written;
   * otherwise trash/<id> holds exactly the locator's text and no other entry
   * changes.
   */
  lemma CallWritesMarker(trashDir: Path, request: RemoveRequest, fs: Tree)
    ensures GetPnfsId(request.uri).Err? ==> CallStep(trashDir, request, fs) == (Err(GetPnfsId(request.uri).error), fs)
    ensures request.uri.query.None? ==> CallStep(trashDir, request, fs).0 == Err(IllegalArgument("URI lacks query part"))
    ensures GetPnfsId(request.uri).Ok? && !IsDirectory(fs, Resolve(trashDir, GetPnfsId(request.uri).value)) ==>
              CallStep(trashDir, request, fs)
              == (Ok(()), fs[Resolve(trashDir, GetPnfsId(request.uri).value) := Regular(ToAscii(request.uri))])
  {
  }

  /**
   * Removing a file whose locator a flush reported writes trash/<id> holding
   * type://name?bfid=id, for an id free of separators.
   */
  lemma RemoveOfFlushedLocator(trashDir: Path, storageType: string, storageName: string, pnfsId: string, fs: Tree)
    requires ValidScheme(storageType) && pnfsId != "" && '&' !in pnfsId && '=' !in pnfsId
    requires !IsDirectory(fs, trashDir + [pnfsId])
    ensures CallStep(trashDir, RemoveRequest(FlushLocator(storageType, storageName, pnfsId).value), fs)
            == (Ok(()), fs[trashDir + [pnfsId] := Regular(storageType + "://" + storageName + "?bfid=" + pnfsId)])
  {
    var u := FlushLocator(storageType, storageName, pnfsId).value;
    FlushLocatorRoundTrip(storageType, storageName, pnfsId);
    FlushLocatorText(storageType, storageName, pnfsId);
    CallWritesMarker(trashDir, RemoveRequest(u), fs);
  }

  method Call(trashDir: Path, request: RemoveRequest, store: FileStore) returns (r: Result<(), Failure>)
    modifies store
    ensures (r, store.entries) == CallStep(trashDir, request, old(store.entries))
  {
    var id := GetPnfsId(request.uri);
    if id.Err? {
      r := Err(id.error);
      return;
    }
    var w := store.Write(Resolve(trashDir, id.value), ToAscii(request.uri));
    r := if w.Err? then Err(IO(w.error)) else Ok(());
  }
}
