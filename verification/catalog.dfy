/**
 The jukebox's fixed track catalog: the keypad codes it knows, the directory
 the MP3 files live in, and how a code is resolved to a file path that may or
 may not exist on disk.
 */
module Catalog {

  /** Directory holding the MP3 files; it ends with a path separator. */
  const Mp3Path: string := "/home/pi/music/"

  /** Keypad selection code to MP3 file name, relative to `Mp3Path`. */
  const Songs: map<string, string> :=
    map["A1" := "song1.mp3", "A2" := "song2.mp3", "A3" := "song3.mp3", "B1" := "song4.mp3"]

  /** True iff `p` is an absolute POSIX path. */
  predicate Absolute(p: string) {
    |p| > 0 && p[0] == '/'
  }

  /** Two-component POSIX path join: an absolute second component replaces the
      first; otherwise a separator is inserted unless the first component is
      empty or already ends with one. */
  function Join(dir: string, file: string): (r: string)
    ensures Absolute(file) ==> r == file
    ensures |r| >= |file| && r[|r| - |file|..] == file
    ensures !Absolute(file) ==> |dir| + |file| <= |r| <= |dir| + 1 + |file| && r[..|dir|] == dir
    // a separator is added exactly when the directory lacks a trailing one
    ensures !Absolute(file) ==>
              (|r| == |dir| + |file| + 1 <==> |dir| > 0 && dir[|dir| - 1] != '/')
    ensures !Absolute(file) && |r| == |dir| + |file| + 1 ==> r[|dir|] == '/'
  {
    if Absolute(file) then file
    else if |dir| == 0 || dir[|dir| - 1] == '/' then dir + file
    else dir + "/" + file
  }

  /** Joining a relative name onto a directory that ends with a separator is
      plain concatenation. */
  lemma JoinUnderDirectory(dir: string, file: string)
    requires |dir| > 0 && dir[|dir| - 1] == '/'
    requires !Absolute(file)
    ensures Join(dir, file) == dir + file
  {
  }

  /** The full path a catalog code plays. */
  function PathOf(code: string): (r: string)
    requires code in Songs
    ensures |r| > |Mp3Path| && r[..|Mp3Path|] == Mp3Path
    ensures r[|r| - |Songs[code]|..] == Songs[code]
  {
    Join(Mp3Path, Songs[code])
  }

  /** Every catalog path is the MP3 directory followed by the file name, and
      lies inside that directory. */
  lemma PathOfIsUnderMp3Path(code: string)
    requires code in Songs
    ensures PathOf(code) == Mp3Path + Songs[code]
    ensures |PathOf(code)| > |Mp3Path| && PathOf(code)[..|Mp3Path|] == Mp3Path
  {
  }

  /** Distinct codes play distinct files, so the played history determines
      which catalog codes were served. */
  lemma PathOfInjective(c1: string, c2: string)
    requires c1 in Songs && c2 in Songs
    ensures PathOf(c1) == PathOf(c2) <==> c1 == c2
  {
  }

  /** What a selection code resolves to: not in the catalog, in the catalog
      but with its file absent, or a playable file path. */
  datatype Resolution = Unknown | Missing(path: string) | Found(path: string)

  /** Resolves a keypad code against the catalog and the file-existence check
      `onDisk` (the filesystem is not part of this model). */
  function Resolve(code: string, onDisk: string -> bool): (r: Resolution)
    ensures r.Unknown? <==> code !in Songs
    ensures r.Found? <==> code in Songs && onDisk(PathOf(code))
    ensures !r.Unknown? ==> code in Songs && r.path == Mp3Path + Songs[code]
  {
    if code !in Songs then Unknown
    else
      PathOfIsUnderMp3Path(code);
      if onDisk(PathOf(code)) then Found(PathOf(code)) else Missing(PathOf(code))
  }
}
