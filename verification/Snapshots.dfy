/** Snapshots as restic lists them, and what each writer puts in theirs. */
module Snapshots {
  import opened Wrappers

  /** `epoch`: when it was taken, when that can be read. */
  datatype Snapshot = Snapshot(id: string, epoch: Option<int>, paths: seq<string>, tags: seq<string>)

  const PASS_TAG := "pass:"
  const DB_TAG := "db:"
  const APP_TAG := "app:"
  const BEFORE_RESTORE := "kind:pre-restore"
  const BACKED_UP := "kind:pre-update"
  const STOPPED_TAG := "kind:copied-stopped"
  const SQLITE_KIND := "kind:sqlite-snapshot"
  const DUMP_KIND := "kind:sql-dump"
  const BUCKET_TAG := "kind:bucket"

  const VOLUMES := "/donnees/"
  const STAGING := "/staging/"
  const ARCHIVES := "/bucket-"

  function VolumePath(volume: string): string {
    VOLUMES + volume
  }

  function ArchivePath(bucket: string): string {
    ARCHIVES + bucket + ".tar"
  }

  /** A database of a volume, beside the journal files it is archived with. */
  function DatabasePaths(volume: string, rel: string): seq<string> {
    var file := VolumePath(volume) + "/" + rel;
    [file, file + "-wal", file + "-shm"]
  }

  /** Each starts otherwise than the others, whatever follows. */
  lemma TagsApart()
    ensures !(PASS_TAG <= BEFORE_RESTORE) && !(PASS_TAG <= BACKED_UP) && !(PASS_TAG <= STOPPED_TAG)
    ensures !(PASS_TAG <= SQLITE_KIND) && !(PASS_TAG <= DUMP_KIND) && !(PASS_TAG <= BUCKET_TAG)
    ensures !(DB_TAG <= SQLITE_KIND)
    ensures SQLITE_KIND != BEFORE_RESTORE && SQLITE_KIND != BACKED_UP && SQLITE_KIND != STOPPED_TAG
    ensures SQLITE_KIND != DUMP_KIND && SQLITE_KIND != BUCKET_TAG
    ensures BEFORE_RESTORE != BACKED_UP && BEFORE_RESTORE != STOPPED_TAG
    ensures BEFORE_RESTORE != DUMP_KIND && BEFORE_RESTORE != BUCKET_TAG
  {
    assert PASS_TAG[0] == 'p' && DB_TAG[0] == 'd' && SQLITE_KIND[0] == 'k';
    assert BEFORE_RESTORE[0] == 'k' && BACKED_UP[0] == 'k' && STOPPED_TAG[0] == 'k';
    assert DUMP_KIND[0] == 'k' && BUCKET_TAG[0] == 'k';
    assert SQLITE_KIND[5] == 's' && BEFORE_RESTORE[5] == 'p' && BACKED_UP[5] == 'p';
    assert STOPPED_TAG[5] == 'c' && BUCKET_TAG[5] == 'b';
    assert SQLITE_KIND[8] == 'i' && DUMP_KIND[5] == 's' && DUMP_KIND[8] == '-';
    assert BEFORE_RESTORE[9] == 'r' && BACKED_UP[9] == 'u';
  }

  /** A tag made of a prefix is not read under another. */
  lemma PrefixedApart(rest: string)
    ensures !(PASS_TAG <= APP_TAG + rest) && !(PASS_TAG <= DB_TAG + rest)
    ensures !(DB_TAG <= APP_TAG + rest) && !(DB_TAG <= PASS_TAG + rest)
    ensures BEFORE_RESTORE != APP_TAG + rest && BEFORE_RESTORE != DB_TAG + rest && BEFORE_RESTORE != PASS_TAG + rest
    ensures SQLITE_KIND != APP_TAG + rest && SQLITE_KIND != DB_TAG + rest && SQLITE_KIND != PASS_TAG + rest
    ensures PASS_TAG <= PASS_TAG + rest && DB_TAG <= DB_TAG + rest
    ensures (DB_TAG + rest)[|DB_TAG|..] == rest
  {
    assert (APP_TAG + rest)[0] == 'a' && (DB_TAG + rest)[0] == 'd' && (PASS_TAG + rest)[0] == 'p';
    assert PASS_TAG[0] == 'p' && DB_TAG[0] == 'd' && BEFORE_RESTORE[0] == 'k' && SQLITE_KIND[0] == 'k';
  }

  /** What lies under one volume lies under no other. */
  lemma OneVolume(volume: string, other: string, rest: string)
    requires '/' !in volume && '/' !in other
    ensures VolumePath(volume) + "/" <= VolumePath(other) + "/" + rest <==> volume == other
  {
    var inside, path := VolumePath(volume) + "/", VolumePath(other) + "/" + rest;
    assert path == VOLUMES + (other + "/" + rest);
    assert volume == other ==> inside <= path;
    if inside <= path {
      assert volume + "/" <= other + "/" + rest by {
        assert inside == VOLUMES + (volume + "/");
        assert inside[|VOLUMES|..] == volume + "/" && path[|VOLUMES|..] == other + "/" + rest;
        assert path[|VOLUMES|..|inside|] == inside[|VOLUMES|..];
      }
      var ours, theirs := volume + "/", other + "/" + rest;
      assert forall i | 0 <= i < |ours| :: ours[i] == theirs[i];
      assert ours[|volume|] == '/' && theirs[|other|] == '/';
      assert forall i | 0 <= i < |volume| :: ours[i] == volume[i];
      assert forall i | 0 <= i < |other| :: theirs[i] == other[i];
      assert |volume| == |other|;
      assert volume == other;
    }
  }

  /** A dump, an archive of a bucket and a volume's own path are inside no volume. */
  lemma OutsideVolumes(volume: string, name: string)
    ensures !(VolumePath(volume) + "/" <= STAGING + name)
    ensures !(VolumePath(volume) + "/" <= ARCHIVES + name)
    ensures VolumePath(volume) != STAGING + name && VolumePath(volume) != ARCHIVES + name
  {
    assert VolumePath(volume)[1] == 'd' && (VolumePath(volume) + "/")[1] == 'd';
    assert (STAGING + name)[1] == 's' && (ARCHIVES + name)[1] == 'b';
  }

  lemma VolumePathsApart(volume: string, other: string)
    ensures VolumePath(volume) == VolumePath(other) <==> volume == other
  {
    assert VolumePath(volume)[|VOLUMES|..] == volume && VolumePath(other)[|VOLUMES|..] == other;
  }
}
