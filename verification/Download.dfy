/** One download attempt (include/rucio-download.h). */
module Download {
  import opened Paths

  const FILE_NOT_FOUND := 1
  const SERVER_NOT_FOUND := 2
  const MAX_ATTEMPTS := 4
  const TOO_MANY_ATTEMPTS := 8
  const SETTINGS_NOT_FOUND := 16

  /** The value of a `rucio_download_info`. */
  datatype Info = Info(server: string, did: string, returnCode: int, attempt: nat, downloaded: bool)

  /** `opens`: the file is there once the external download command has returned. */
  function Wrapper(info: Info, known: set<string>, opens: bool): Info {
    if info.server !in known then info.(returnCode := SERVER_NOT_FOUND)
    else if info.attempt < MAX_ATTEMPTS && info.returnCode != SETTINGS_NOT_FOUND then
      info.(attempt := info.attempt + 1, returnCode := if opens then 0 else FILE_NOT_FOUND, downloaded := opens)
    else info.(returnCode := TOO_MANY_ATTEMPTS, downloaded := false)
  }

  /** An attempt is counted exactly for a known server, below four attempts, and without the settings error;
      then the flag says whether the file is there. A job that is not tried is given up, or keeps its flag
      when its server is unknown. */
  lemma AttemptCounted(info: Info, known: set<string>, opens: bool)
    ensures var after := Wrapper(info, known, opens);
            && after.server == info.server && after.did == info.did
            && (after.attempt > info.attempt <==> info.server in known && info.attempt < 4 && info.returnCode != 16)
            && (after.attempt > info.attempt ==> after.attempt == info.attempt + 1 && after.downloaded == opens)
            && (after.attempt <= info.attempt ==> after.attempt == info.attempt)
            && (after.attempt == info.attempt && info.server in known ==> after.returnCode == 8 && !after.downloaded)
            && (info.server !in known ==> after.returnCode == 2 && after.downloaded == info.downloaded)
  {
  }

  class DownloadInfo {
    const fserverName: string
    const fdid: string
    var freturnCode: int
    var fattempt: nat
    var fdownloaded: bool

    function Value(): Info
      reads this
    {
      Info(fserverName, fdid, freturnCode, fattempt, fdownloaded)
    }

    constructor (did: string, path: string)
      ensures Value() == Info(ExtractServerName(path), did, 0, 0, false)
    {
      fdid := did;
      fserverName := ExtractServerName(path);
      freturnCode, fattempt, fdownloaded := 0, 0, false;
    }

    /** The copy a worker takes from a queue. */
    constructor Copy(info: Info)
      ensures Value() == info
    {
      fdid, fserverName := info.did, info.server;
      freturnCode, fattempt, fdownloaded := info.returnCode, info.attempt, info.downloaded;
    }

    /** `copyThrows`: preparing the configuration failed. That error code never survives the attempt. */
    method RucioDownloadWrapper(known: set<string>, copyThrows: bool, opens: bool)
      modifies this
      ensures Value() == Wrapper(old(Value()), known, opens)
    {
      if fserverName !in known {
        freturnCode := SERVER_NOT_FOUND;
        return;
      }
      if fattempt < MAX_ATTEMPTS && freturnCode != SETTINGS_NOT_FOUND {
        fattempt := fattempt + 1;
        if copyThrows {
          freturnCode := SETTINGS_NOT_FOUND;
          fdownloaded := false;
        }
        if !opens {
          freturnCode := FILE_NOT_FOUND;
          fdownloaded := false;
        } else {
          freturnCode := 0;
          fdownloaded := true;
        }
      } else {
        freturnCode := TOO_MANY_ATTEMPTS;
        fdownloaded := false;
      }
    }
  }
}
