/**
  The output directory as the pipeline changes it: files written, appended to
  and deleted, each named by its path under `./output`.
 */
module Store {
  import opened Wrappers
  import Paths

  /** The listed JSON files a cleanup deletes: those with the `json` extension, except
      the ones whose deletion fails. */
  function JsonTargets(entries: seq<Option<string>>, undeletable: set<string>): set<string>
  {
    set i | 0 <= i < |entries| && entries[i].Some? && Paths.IsJson(entries[i].value) && entries[i].value !in undeletable
      :: entries[i].value
  }

  /** The files left after `delete_json_files` walks the directory listing `listing`;
      deleting a path in `undeletable` fails and the walk goes on. */
  function AfterCleanup(files: map<string, string>, listing: Result<seq<Option<string>>, string>, undeletable: set<string>)
    : (r: map<string, string>)
    ensures listing.Err? ==> r == files
    ensures forall p :: p in r <==>
      p in files && !(listing.Ok? && Some(p) in listing.value && Paths.IsJson(p) && p !in undeletable)
    ensures forall p :: p in r ==> r[p] == files[p]
  {
    match listing
    case Err(_) => files
    case Ok(entries) =>
      assert forall p :: p in JsonTargets(entries, undeletable) <==>
        Some(p) in entries && Paths.IsJson(p) && p !in undeletable by {
        forall p | Some(p) in entries ensures exists i :: 0 <= i < |entries| && entries[i] == Some(p) {
          var i :| 0 <= i < |entries| && entries[i] == Some(p);
        }
      }
      files - JsonTargets(entries, undeletable)
  }

  /** When every file of the directory is listed, the cleanup leaves no JSON file except
      those it could not delete, and leaves every other file as it was. */
  lemma CleanupComplete(files: map<string, string>, entries: seq<Option<string>>, undeletable: set<string>)
    requires forall p :: p in files ==> Some(p) in entries
    ensures forall p :: p in AfterCleanup(files, Ok(entries), undeletable) && Paths.IsJson(p) ==> p in undeletable
    ensures forall p :: p in files && !Paths.IsJson(p) ==>
      p in AfterCleanup(files, Ok(entries), undeletable) && AfterCleanup(files, Ok(entries), undeletable)[p] == files[p]
  {
  }

  /** After a listed cleanup the match's four conversion inputs are gone, unless their
      deletion failed, while its frame CSV and feedback report stay as they were. */
  lemma CleanupOfMatch(files: map<string, string>, entries: seq<Option<string>>, undeletable: set<string>, guid: string)
    requires forall p :: p in Paths.ConversionInputs(guid) ==> Some(p) in entries
    ensures forall p :: p in Paths.ConversionInputs(guid) && p !in undeletable ==>
      p !in AfterCleanup(files, Ok(entries), undeletable)
    ensures var kept := Paths.FramesCsv(guid);
      kept in files ==>
        (kept in AfterCleanup(files, Ok(entries), undeletable) &&
         AfterCleanup(files, Ok(entries), undeletable)[kept] == files[kept])
    ensures var kept := Paths.FeedbackPath(guid);
      kept in files ==>
        (kept in AfterCleanup(files, Ok(entries), undeletable) &&
         AfterCleanup(files, Ok(entries), undeletable)[kept] == files[kept])
  {
    Paths.ConversionInputsAreJson(guid);
    Paths.KeptArtifactExtensions(guid);
  }

  class OutputDir {
    /** Each file's path and its content. */
    var files: map<string, string>

    constructor (initial: map<string, string>)
      ensures files == initial
    {
      files := initial;
    }

    /** `fs::write`: create the file or replace its content. */
    method Write(path: string, content: string)
      modifies this
      ensures files == old(files)[path := content]
    {
      files := files[path := content];
    }

    /** A write in append mode to an existing file. */
    method AppendTo(path: string, text: string)
      requires path in files
      modifies this
      ensures files == old(files)[path := old(files)[path] + text]
    {
      files := files[path := files[path] + text];
    }

    /** `delete_json_files`: walk the listing of the directory, skipping unreadable entries,
        and delete every entry with the `json` extension; a failed delete is reported and
        the walk goes on. */
    method DeleteJsonFiles(listing: Result<seq<Option<string>>, string>, undeletable: set<string>)
      modifies this
      ensures files == AfterCleanup(old(files), listing, undeletable)
    {
      if listing.Err? {
        return;
      }
      var entries := listing.value;
      for i := 0 to |entries|
        invariant files == old(files) - JsonTargets(entries[..i], undeletable)
      {
        assert entries[..i + 1] == entries[..i] + [entries[i]];
        if entries[i].Some? {
          var path := entries[i].value;
          if Paths.IsJson(path) {
            // `remove_file` fails for a missing or undeletable file; that is only reported
            if path !in undeletable && path in files {
              files := files - {path};
            }
          }
        }
        assert JsonTargets(entries[..i + 1], undeletable) ==
          JsonTargets(entries[..i], undeletable) +
          (if entries[i].Some? && Paths.IsJson(entries[i].value) && entries[i].value !in undeletable
           then {entries[i].value} else {});
      }
      assert entries[..|entries|] == entries;
    }
  }
}
