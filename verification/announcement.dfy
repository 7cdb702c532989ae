/**
 * The spoken announcement of a queue number (`get_voice_files` in
 * user/views.py): numbers up to 20 have a clip of their own; larger numbers
 * are spoken as a "tens" clip (file name suffixed with a literal `o`)
 * followed by a units clip.
 */
module Announcement {
  import opened Util

  /** Directory prefix of every clip (`VOICE_PATH`). */
  const VoicePath: string := "voice/PS1505-iww234963dgd-www/"
  /** File extension of every clip. */
  const Extension: string := ".mp3"
  /** Numbers up to and including this one are spoken by a single clip. */
  const Threshold: nat := 20

  function DigitChar(d: nat): (c: char)
    requires d < 10
    ensures '0' <= c <= '9'
  {
    (48 + d) as char
  }

  function DigitValue(c: char): Option<nat> {
    if '0' <= c <= '9' then Some(c as int - 48) else None
  }

  /** The decimal text of `n`, as Python's `str(n)` and f-strings render it. */
  function Decimal(n: nat): (s: string)
    ensures |s| >= 1
    ensures forall i :: 0 <= i < |s| ==> '0' <= s[i] <= '9'
    ensures s[0] == '0' ==> n == 0 && |s| == 1
  {
    if n < 10 then [DigitChar(n)] else Decimal(n / 10) + [DigitChar(n % 10)]
  }

  /** Reads a string of decimal digits back into a number. */
  function ParseDecimal(s: string): Option<nat> {
    if |s| == 0 then None
    else
      var d := DigitValue(s[|s| - 1]);
      if d.None? then None
      else if |s| == 1 then d
      else
        match ParseDecimal(s[..|s| - 1])
        case None => None
        case Some(p) => Some(p * 10 + d.value)
  }

  lemma {:induction false} ParseDecimalOfDecimal(n: nat)
    ensures ParseDecimal(Decimal(n)) == Some(n)
  {
    if n >= 10 {
      ParseDecimalOfDecimal(n / 10);
      var s := Decimal(n);
      assert s[..|s| - 1] == Decimal(n / 10);
    }
  }

  /** The asset path of the clip called `name`. */
  function Clip(name: string): string {
    VoicePath + name + Extension
  }

  /**
   * The clips that announce queue number `n`, in playing order: up to the
   * threshold the clip named by `n`; above it the clip named by the tens of
   * `n` with an `o` suffix, then the clip named by its units digit.
   */
  function VoiceFiles(n: nat): (files: seq<string>)
    ensures |files| == 1 <==> n <= Threshold
    ensures |files| == 2 <==> n > Threshold
    ensures n <= Threshold ==> ClipName(files[0]) == Some(Decimal(n))
    ensures n > Threshold ==>
      ClipName(files[0]) == Some(Decimal((n / 10) * 10) + "o") &&
      ClipName(files[1]) == Some(Decimal(n % 10))
    ensures n > Threshold ==> (n / 10) * 10 % 10 == 0 && n % 10 < 10 && (n / 10) * 10 + n % 10 == n
  {
    ClipNameOfClip(Decimal(n));
    ClipNameOfClip(Decimal((n / 10) * 10) + "o");
    ClipNameOfClip(Decimal(n % 10));
    if n <= Threshold then
      [Clip(Decimal(n))]
    else
      var tens := (n / 10) * 10;
      var units := n % 10;
      [Clip(Decimal(tens) + "o"), Clip(Decimal(units))]
  }

  /** The clip name inside an asset path, if the path has the clip shape. */
  function ClipName(file: string): Option<string> {
    if |file| >= |VoicePath| + |Extension|
       && file[..|VoicePath|] == VoicePath
       && file[|file| - |Extension|..] == Extension
    then Some(file[|VoicePath|..|file| - |Extension|])
    else None
  }

  lemma ClipNameOfClip(name: string)
    ensures ClipName(Clip(name)) == Some(name)
  {
    var file := Clip(name);
    assert file[..|VoicePath|] == VoicePath;
    assert file[|file| - |Extension|..] == Extension;
    assert file[|VoicePath|..|file| - |Extension|] == name;
  }

  /**
   * What a listener hears: the number announced by a clip list, the
   * independent reading against which VoiceFiles is checked.
   */
  function ParseVoiceFiles(files: seq<string>): Option<nat> {
    if |files| == 1 then
      match ClipName(files[0])
      case None => None
      case Some(name) => ParseDecimal(name)
    else if |files| == 2 then
      match (ClipName(files[0]), ClipName(files[1]))
      case (Some(tensName), Some(unitsName)) =>
        if |tensName| >= 1 && tensName[|tensName| - 1] == 'o' then
          match (ParseDecimal(tensName[..|tensName| - 1]), ParseDecimal(unitsName))
          case (Some(tens), Some(units)) => Some(tens + units)
          case _ => None
        else None
      case _ => None
    else None
  }

  /** Every announcement is heard as the number it announces. */
  lemma {:induction false} VoiceFilesRoundTrip(n: nat)
    ensures ParseVoiceFiles(VoiceFiles(n)) == Some(n)
  {
    if n <= Threshold {
      ClipNameOfClip(Decimal(n));
      ParseDecimalOfDecimal(n);
    } else {
      var tens, units := (n / 10) * 10, n % 10;
      var tensName := Decimal(tens) + "o";
      ClipNameOfClip(tensName);
      ClipNameOfClip(Decimal(units));
      assert tensName[..|tensName| - 1] == Decimal(tens);
      ParseDecimalOfDecimal(tens);
      ParseDecimalOfDecimal(units);
    }
  }

  /** Distinct queue numbers are never announced the same way. */
  lemma VoiceFilesInjective(a: nat, b: nat)
    requires VoiceFiles(a) == VoiceFiles(b)
    ensures a == b
  {
    VoiceFilesRoundTrip(a);
    VoiceFilesRoundTrip(b);
  }

  /** The announcements of 5, 20, 21, 30 and 47, written out in full. */
  /** The decimal texts the examples below announce. */
  lemma DecimalLiterals()
    ensures Decimal(0) == "0" && Decimal(1) == "1" && Decimal(5) == "5" && Decimal(7) == "7"
    ensures Decimal(20) == "20" && Decimal(30) == "30" && Decimal(40) == "40"
  {
    assert DigitChar(0) == '0' && DigitChar(1) == '1' && DigitChar(2) == '2';
    assert DigitChar(3) == '3' && DigitChar(4) == '4' && DigitChar(5) == '5' && DigitChar(7) == '7';
    assert Decimal(2) == "2" && Decimal(3) == "3" && Decimal(4) == "4";
  }

  /** The asset paths the examples below play. */
  lemma ClipLiterals()
    ensures Clip("5") == "voice/PS1505-iww234963dgd-www/5.mp3"
    ensures Clip("20") == "voice/PS1505-iww234963dgd-www/20.mp3"
    ensures Clip("20o") == "voice/PS1505-iww234963dgd-www/20o.mp3"
    ensures Clip("30o") == "voice/PS1505-iww234963dgd-www/30o.mp3"
    ensures Clip("40o") == "voice/PS1505-iww234963dgd-www/40o.mp3"
    ensures Clip("0") == "voice/PS1505-iww234963dgd-www/0.mp3"
    ensures Clip("1") == "voice/PS1505-iww234963dgd-www/1.mp3"
    ensures Clip("7") == "voice/PS1505-iww234963dgd-www/7.mp3"
  {
  }

  lemma VoiceFilesExamples()
    ensures VoiceFiles(5) == ["voice/PS1505-iww234963dgd-www/5.mp3"]
    ensures VoiceFiles(20) == ["voice/PS1505-iww234963dgd-www/20.mp3"]
    ensures VoiceFiles(21) == ["voice/PS1505-iww234963dgd-www/20o.mp3", "voice/PS1505-iww234963dgd-www/1.mp3"]
    ensures VoiceFiles(30) == ["voice/PS1505-iww234963dgd-www/30o.mp3", "voice/PS1505-iww234963dgd-www/0.mp3"]
    ensures VoiceFiles(47) == ["voice/PS1505-iww234963dgd-www/40o.mp3", "voice/PS1505-iww234963dgd-www/7.mp3"]
  {
    DecimalLiterals();
    ClipLiterals();
    assert Decimal(20) + "o" == "20o" && Decimal(30) + "o" == "30o" && Decimal(40) + "o" == "40o";
  }
}
