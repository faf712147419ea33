/**
 * The output of a `LineProgressReporter` for the call sequences of the
 * repository's reporter tests, character for character.
 */
module ReporterScenarios {
  import opened Domain
  import opened Decimal
  import opened Infrastructure

  /** The stats line for two directories, one with weights, one archive and one extraction. */
  lemma SampleStatsLine()
    ensures StatsLine(ExtractStats(2, 1, 1, 1)) == "\rdirs: 2" + (" safetensors: 1" + (" zip: 1" + " extracted: 1"))
  {
    ExtractedField("");
    assert " extracted: 1" + "" == " extracted: 1";
    ZipField(" extracted: 1");
    SafetensorsField(" zip: 1" + " extracted: 1");
    DirsField(" safetensors: 1" + (" zip: 1" + " extracted: 1"));
  }

  lemma ExtractedField(rest: string)
    ensures Field(" extracted: ", 1, rest) == " extracted: 1" + rest
  {
    SingleDigitField(" extracted: ", 1, rest);
    assert " extracted: " + [DigitChar(1)] == " extracted: 1";
  }

  lemma ZipField(rest: string)
    ensures Field(" zip: ", 1, rest) == " zip: 1" + rest
  {
    SingleDigitField(" zip: ", 1, rest);
    assert " zip: " + [DigitChar(1)] == " zip: 1";
  }

  lemma SafetensorsField(rest: string)
    ensures Field(" safetensors: ", 1, rest) == " safetensors: 1" + rest
  {
    SingleDigitField(" safetensors: ", 1, rest);
    assert " safetensors: " + [DigitChar(1)] == " safetensors: 1";
  }

  lemma DirsField(rest: string)
    ensures Field("\rdirs: ", 2, rest) == "\rdirs: 2" + rest
  {
    SingleDigitField("\rdirs: ", 2, rest);
    assert "\rdirs: " + [DigitChar(2)] == "\rdirs: 2";
  }

  /** The spinner message hides the weights-directory counter: `dirs: 1 zip: 2 extracted: 3` for 1, 99, 2, 3. */
  lemma SampleFormatStats()
    ensures FormatStats(ExtractStats(1, 99, 2, 3)) == "dirs: 1" + (" zip: 2" + " extracted: 3")
  {
    SingleDigitField(" extracted: ", 3, "");
    assert " extracted: " + [DigitChar(3)] + "" == " extracted: 3";
    SingleDigitField(" zip: ", 2, " extracted: 3");
    assert " zip: " + [DigitChar(2)] == " zip: 2";
    SingleDigitField("dirs: ", 1, " zip: 2" + " extracted: 3");
    assert "dirs: " + [DigitChar(1)] == "dirs: 1";
  }

  /** A fresh reporter told of one invalid archive writes exactly the invalid-archive line. */
  method InvalidZipLine() returns (output: string)
    ensures output == "\ninvalid zip: /tmp/bad.zip (invalid)\n"
  {
    var reporter := new LineProgressReporter.WithWriter("");
    reporter.OnInvalidZip("/tmp/bad.zip", "invalid");
    output := reporter.IntoInner();
    InvalidZipText();
  }

  lemma InvalidZipText()
    ensures "" + ("\ninvalid zip: " + "/tmp/bad.zip" + " (" + "invalid" + ")\n") == "\ninvalid zip: /tmp/bad.zip (invalid)\n"
  {
  }

  /**
   * The reporter's output for start, update and finish with the same
   * counters: one scanning line and a single stats line.
   */
  method ReporterTranscript() returns (output: string)
    ensures output == "scanning: /tmp\n" + ("\rdirs: 2" + (" safetensors: 1" + (" zip: 1" + " extracted: 1"))) + "\n"
  {
    var reporter := new LineProgressReporter.WithWriter("");
    reporter.OnStart("/tmp");
    var stats := ExtractStats(2, 1, 1, 1);
    reporter.OnUpdate(stats);
    reporter.OnFinish(stats);
    output := reporter.IntoInner();
    SampleStatsLine();
  }

  /** The reporter's output for a start, a second start and an invalid archive. */
  method InvalidZipTranscript() returns (output: string)
    ensures output == "scanning: /tmp\n" + "\ninvalid zip: /tmp/bad.zip (invalid)\n"
  {
    var reporter := new LineProgressReporter.WithWriter("");
    reporter.OnStart("/tmp");
    reporter.OnStart("/other");
    reporter.OnInvalidZip("/tmp/bad.zip", "invalid");
    output := reporter.IntoInner();
    InvalidZipText();
  }
}
