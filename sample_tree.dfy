/**
 * The file names of the sample tree of the sample run and how a directory
 * callback classifies them, by the rules of `Path::extension`.
 */
module SampleTree {
  import opened Wrappers
  import opened Paths
  import opened Application

  lemma BadMarker()
    ensures IsMarker("/r/bad/m.safetensors")
  {
    assert "/r/bad/m.safetensors" == "/r/bad/" + ("m" + "." + "safetensors");
    ExtensionOfName("/r/bad/", "m", "safetensors");
  }

  lemma BadArchive()
    ensures IsArchive("/r/bad/b.zip")
  {
    assert "/r/bad/b.zip" == "/r/bad/" + ("b" + "." + "zip");
    ExtensionOfName("/r/bad/", "b", "zip");
  }

  lemma GoodMarker()
    ensures IsMarker("/r/good/m.safetensors")
  {
    assert "/r/good/m.safetensors" == "/r/good/" + ("m" + "." + "safetensors");
    ExtensionOfName("/r/good/", "m", "safetensors");
  }

  lemma GoodArchive()
    ensures IsArchive("/r/good/m.zip")
  {
    assert "/r/good/m.zip" == "/r/good/" + ("m" + "." + "zip");
    ExtensionOfName("/r/good/", "m", "zip");
  }

  /** `M.ZIP` has extension `ZIP`: neither a marker nor a candidate archive. */
  lemma UpperCaseArchive()
    ensures Extension("/r/good/M.ZIP") == Some("ZIP")
  {
    assert "/r/good/M.ZIP" == "/r/good/" + ("M" + "." + "ZIP");
    ExtensionOfName("/r/good/", "M", "ZIP");
  }

  lemma PlainArchive()
    ensures IsArchive("/r/plain/m.zip")
  {
    assert "/r/plain/m.zip" == "/r/plain/" + ("m" + "." + "zip");
    ExtensionOfName("/r/plain/", "m", "zip");
  }

  lemma ClassifyMarkerArchive(marker: Path, archive: Path)
    requires IsMarker(marker) && IsArchive(archive)
    ensures HasMarker([marker, archive])
    ensures ZipFiles([marker, archive]) == [archive]
  {
    assert [marker, archive][..1] == [marker];
    assert [marker][..0] == [];
  }

  lemma ClassifyMarkerArchiveOther(marker: Path, archive: Path, other: Path)
    requires IsMarker(marker) && IsArchive(archive) && !IsMarker(other) && !IsArchive(other)
    ensures HasMarker([marker, archive, other])
    ensures ZipFiles([marker, archive, other]) == [archive]
  {
    assert [marker, archive, other][..2] == [marker, archive];
    ClassifyMarkerArchive(marker, archive);
  }

  lemma ClassifyArchive(archive: Path)
    requires IsArchive(archive)
    ensures !HasMarker([archive])
  {
    assert [archive][..0] == [];
  }

  /** The weights directory with a broken archive. */
  lemma BadDirectory()
    ensures HasMarker(["/r/bad/m.safetensors", "/r/bad/b.zip"])
    ensures ZipFiles(["/r/bad/m.safetensors", "/r/bad/b.zip"]) == ["/r/bad/b.zip"]
  {
    BadMarker();
    BadArchive();
    ClassifyMarkerArchive("/r/bad/m.safetensors", "/r/bad/b.zip");
  }

  /** The weights directory with a good archive; `M.ZIP` is not a candidate, the match is case-sensitive. */
  lemma GoodDirectory()
    ensures HasMarker(["/r/good/m.safetensors", "/r/good/m.zip", "/r/good/M.ZIP"])
    ensures ZipFiles(["/r/good/m.safetensors", "/r/good/m.zip", "/r/good/M.ZIP"]) == ["/r/good/m.zip"]
  {
    GoodMarker();
    GoodArchive();
    UpperCaseArchive();
    ClassifyMarkerArchiveOther("/r/good/m.safetensors", "/r/good/m.zip", "/r/good/M.ZIP");
  }

  /** The directory with an archive and no weights file. */
  lemma PlainDirectory()
    ensures !HasMarker(["/r/plain/m.zip"])
  {
    PlainArchive();
    ClassifyArchive("/r/plain/m.zip");
  }
}
