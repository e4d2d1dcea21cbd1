/**
 * The deletion rule of `clear_old_files` in `utils.py`. The directory listing,
 * the clock and the file system are inputs: the model computes the paths the
 * function asks the operating system to remove, in listing order.
 */
module FileCleanup {
  import opened Common

  /** An entry of `os.listdir(directory)`: its name, whether `os.path.isfile`
      holds for it, and `os.path.getmtime` in seconds. */
  datatype Entry = Entry(name: string, isFile: bool, mtime: real)

  const SECONDS_PER_HOUR: int := 3600

  /** `os.path.join(directory, filename)` on POSIX paths. */
  function JoinPath(directory: string, name: string): string {
    if name != [] && name[0] == '/' then name
    else if directory == [] || directory[|directory| - 1] == '/' then directory + name
    else directory + "/" + name
  }

  /** A file whose age exceeds the limit (`file_age > max_age_seconds`). */
  predicate Expired(e: Entry, now: real, maxAgeHours: int) {
    e.isFile && now - e.mtime > (maxAgeHours * SECONDS_PER_HOUR) as real
  }

  /** The paths of the expired files of `entries`, in order. */
  function ExpiredPaths(directory: string, entries: seq<Entry>, now: real, maxAgeHours: int): (r: seq<string>)
    ensures |r| <= |entries|
  {
    if entries == [] then []
    else
      var e := entries[|entries| - 1];
      var init := ExpiredPaths(directory, entries[..|entries| - 1], now, maxAgeHours);
      if Expired(e, now, maxAgeHours) then init + [JoinPath(directory, e.name)] else init
  }

  /** A path is removed exactly when it names an expired file of the listing. */
  lemma {:induction false} ExpiredPathsExactly(directory: string, entries: seq<Entry>, now: real, maxAgeHours: int, path: string)
    ensures path in ExpiredPaths(directory, entries, now, maxAgeHours) <==>
              exists i :: 0 <= i < |entries| && Expired(entries[i], now, maxAgeHours)
                          && path == JoinPath(directory, entries[i].name)
  {
    if entries != [] {
      var init := entries[..|entries| - 1];
      ExpiredPathsExactly(directory, init, now, maxAgeHours, path);
      assert forall i :: 0 <= i < |init| ==> init[i] == entries[i];
    }
  }

  /** A later clock removes every path an earlier one removed. */
  lemma {:induction false} LaterRemovesMore(directory: string, entries: seq<Entry>, now: real, later: real, maxAgeHours: int)
    requires now <= later
    ensures forall p :: p in ExpiredPaths(directory, entries, now, maxAgeHours) ==>
                        p in ExpiredPaths(directory, entries, later, maxAgeHours)
  {
    if entries != [] {
      LaterRemovesMore(directory, entries[..|entries| - 1], now, later, maxAgeHours);
    }
  }

  /** A longer age limit removes no path a shorter one keeps. */
  lemma {:induction false} LongerLimitRemovesLess(directory: string, entries: seq<Entry>, now: real, shorter: int, longer: int)
    requires shorter <= longer
    ensures forall p :: p in ExpiredPaths(directory, entries, now, longer) ==>
                        p in ExpiredPaths(directory, entries, now, shorter)
  {
    if entries != [] {
      LongerLimitRemovesLess(directory, entries[..|entries| - 1], now, shorter, longer);
    }
  }

  /** `clear_old_files(directory, max_age_hours)`: `listing` is `None` when the
      directory does not exist; the result is the sequence of `os.remove`
      calls. A removal that fails is reported and the loop goes on, so every
      call is made whatever the outcome of the previous ones. */
  method ClearOldFiles(directory: string, listing: Option<seq<Entry>>, now: real, maxAgeHours: int)
    returns (removals: seq<string>)
    ensures listing.None? ==> removals == []
    ensures listing.Some? ==> removals == ExpiredPaths(directory, listing.value, now, maxAgeHours)
  {
    removals := [];
    if listing.None? {
      return;
    }
    var entries := listing.value;
    var maxAgeSeconds := maxAgeHours * SECONDS_PER_HOUR;
    var i := 0;
    while i < |entries|
      invariant 0 <= i <= |entries|
      invariant removals == ExpiredPaths(directory, entries[..i], now, maxAgeHours)
    {
      assert entries[..i + 1][..i] == entries[..i];
      var entry := entries[i];
      var filePath := JoinPath(directory, entry.name);
      if entry.isFile {
        var fileAge := now - entry.mtime;
        if fileAge > maxAgeSeconds as real {
          removals := removals + [filePath];
        }
      }
      i := i + 1;
    }
    assert entries[..i] == entries;
  }
}
