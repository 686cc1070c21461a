/** The Pig versions Mortar can run a script under, each with the name of its
    distribution archive and the path it is downloaded from. */
module PigVersions {
  import opened Common

  const Pig09TgzName := "pig-0.9.tar.gz"
  const Pig09TgzDefaultUrlPath := "resource/pig_0_9"
  const Pig012TgzName := "pig-0.12.tar.gz"
  const Pig012TgzDefaultUrlPath := "resource/pig_0_12"

  const UnsupportedPrefix := "Unsupported pig version: "

  datatype PigVersion = Pig09 | Pig012 {
    function Version(): string {
      if Pig09? then "0.9" else "0.12"
    }

    /** name: "pig-" followed by the version. */
    function Name(): (r: string)
      ensures |r| == 4 + |Version()| && r[..4] == "pig-" && r[4..] == Version()
    {
      "pig-" + Version()
    }

    function TgzName(): string {
      if Pig09? then Pig09TgzName else Pig012TgzName
    }

    function TgzDefaultUrlPath(): string {
      if Pig09? then Pig09TgzDefaultUrlPath else Pig012TgzDefaultUrlPath
    }
  }

  /** PigVersion.from_string: exactly the two version strings are known. */
  function FromString(s: string): (r: Result<PigVersion>)
    ensures r.Ok? <==> s == "0.9" || s == "0.12"
    ensures r.Ok? ==> r.value.Version() == s
    ensures r.Err? ==> r.msg == UnsupportedPrefix + s
  {
    if s == "0.9" then Ok(Pig09)
    else if s == "0.12" then Ok(Pig012)
    else Err(UnsupportedPrefix + s)
  }

  /** Every version is read back from its own version string. */
  lemma FromStringVersion(v: PigVersion)
    ensures FromString(v.Version()) == Ok(v)
  {
  }

  /** Each archive is named after its version, and two versions never share
      a name, an archive or a download path. */
  lemma ArchivesNamedAfterVersion(v: PigVersion, w: PigVersion)
    ensures v.TgzName() == v.Name() + ".tar.gz"
    ensures v != w ==> v.Name() != w.Name() && v.TgzName() != w.TgzName()
                       && v.TgzDefaultUrlPath() != w.TgzDefaultUrlPath()
  {
    if v != w {
      assert v.Name()[4..] != w.Name()[4..];
      assert v.TgzDefaultUrlPath()[13..] != w.TgzDefaultUrlPath()[13..];
    }
  }
}
