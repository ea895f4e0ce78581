/** `formatDirectionLabel` (js/utils.js): the heading of a direction, a
    checkpoint or building name written out from the short forms the feed
    uses. */
module Labels {
  import opened Text

  /** Every character is an ASCII digit. */
  predicate AllDigits(s: string) {
    forall i :: 0 <= i < |s| ==> IsDigit(s[i])
  }

  /** The pattern `^\d{2,4}(\/\d)?$`: a two- to four-digit building number,
      optionally followed by a slash and one digit. */
  predicate IsBuildingNumber(s: string) {
    || (2 <= |s| <= 4 && AllDigits(s))
    || (4 <= |s| <= 6 && AllDigits(s[..|s| - 2]) && s[|s| - 2] == '/' && IsDigit(s[|s| - 1]))
  }

  /** The label shown for the building number `112`. */
  const Checkpoint112: string := "КПП 1 (тит.112)"

  /** `formatDirectionLabel`: an em dash for a blank label; the trimmed label
      itself when it names a checkpoint or already carries a building prefix;
      the checkpoint name for `112`; the building prefix before a bare
      building number; otherwise the trimmed label. */
  function FormatDirectionLabel(raw: string): (r: string)
    ensures r != "" && IsTrimmed(r)
    ensures IsBlank(raw) ==> r == "—"
    ensures !IsBlank(raw) ==> r == Trim(raw) || r == Checkpoint112 || r == "тит." + Trim(raw)
  {
    var s := Trim(raw);
    var low := Lower(s);
    TrimEmptyIffBlank(raw);
    if s == "" then "—"
    else if Contains(low, "кпп") then s
    else if s == "112" then Checkpoint112
    else if StartsWith(low, "тит.") || StartsWith(low, "т.") then s
    else if IsBuildingNumber(s) then "тит." + s
    else s
  }

  /** A building number is unchanged by lower-casing and neither names a
      checkpoint nor carries a building prefix. */
  lemma BuildingNumberPlain(s: string)
    requires IsBuildingNumber(s)
    ensures Lower(s) == s
    ensures !Contains(s, "кпп") && !StartsWith(s, "тит.") && !StartsWith(s, "т.")
  {
    assert forall i :: 0 <= i < |s| ==> IsDigit(s[i]) || s[i] == '/' by {
      if !(2 <= |s| <= 4 && AllDigits(s)) {
        forall i | 0 <= i < |s| ensures IsDigit(s[i]) || s[i] == '/' {
          if i < |s| - 2 {
            assert s[..|s| - 2][i] == s[i];
          }
        }
      }
    }
    assert 'к' !in s;
    MissingCharNotContained(s, "кпп", 0);
    assert IsDigit(s[0]);
    if |s| >= 4 {
      assert s[..4][0] == s[0];
    }
    assert s[..2][0] == s[0];
  }

  /** The cases of the label, one by one, for a label that is not blank. */
  lemma FormatDirectionLabelCases(raw: string)
    requires !IsBlank(raw)
    ensures Contains(Lower(Trim(raw)), "кпп") ==> FormatDirectionLabel(raw) == Trim(raw)
    ensures Trim(raw) == "112" ==> FormatDirectionLabel(raw) == Checkpoint112
    ensures StartsWith(Lower(Trim(raw)), "тит.") || StartsWith(Lower(Trim(raw)), "т.") ==>
      FormatDirectionLabel(raw) == Trim(raw)
    ensures IsBuildingNumber(Trim(raw)) && Trim(raw) != "112" ==>
      FormatDirectionLabel(raw) == "тит." + Trim(raw)
    ensures (&& !Contains(Lower(Trim(raw)), "кпп") && Trim(raw) != "112"
             && !StartsWith(Lower(Trim(raw)), "тит.") && !StartsWith(Lower(Trim(raw)), "т.")
             && !IsBuildingNumber(Trim(raw))) ==>
      FormatDirectionLabel(raw) == Trim(raw)
  {
    TrimEmptyIffBlank(raw);
    var s := Trim(raw);
    if s == "112" {
      assert Lower(s) == s by {
        assert IsBuildingNumber(s);
        BuildingNumberPlain(s);
      }
      MissingCharNotContained(s, "кпп", 0);
    }
    if IsBuildingNumber(s) {
      BuildingNumberPlain(s);
    }
  }

  /** Formatting a formatted label changes nothing. */
  lemma FormatDirectionLabelIdempotent(raw: string)
    ensures FormatDirectionLabel(FormatDirectionLabel(raw)) == FormatDirectionLabel(raw)
  {
    var s := Trim(raw);
    var r := FormatDirectionLabel(raw);
    assert Trim(r) == r;
    if r == "—" {
      DashFormatsToItself();
    } else if r == Checkpoint112 {
      CheckpointFormatsToItself();
    } else if r == "тит." + s && r != s {
      PrefixedNumberFormatsToItself(s);
    }
  }

  /** The em dash is its own label. */
  lemma DashFormatsToItself()
    ensures FormatDirectionLabel("—") == "—"
  {
    var d := "—";
    assert Trim(d) == d;
    assert Lower(d) == d;
    MissingCharNotContained(d, "кпп", 0);
    assert !StartsWith(d, "т.");
    assert !IsBuildingNumber(d);
  }

  /** The checkpoint name is its own label. */
  lemma CheckpointFormatsToItself()
    ensures FormatDirectionLabel(Checkpoint112) == Checkpoint112
  {
    var c := Checkpoint112;
    assert Trim(c) == c;
    assert Lower(c)[..3] == "кпп";
    assert StartsWith(Lower(c), "кпп");
  }

  /** A building number with its prefix is its own label. */
  lemma PrefixedNumberFormatsToItself(s: string)
    requires IsBuildingNumber(s)
    ensures FormatDirectionLabel("тит." + s) == "тит." + s
  {
    var p := "тит." + s;
    PrefixedNumberPlain(s);
    assert Trim(p) == p;
    assert StartsWith(Lower(Trim(p)), "тит.");
    assert Trim(p) != "112" by {
      assert |Trim(p)| >= 6;
    }
  }

  /** A building number with its prefix is trimmed, unchanged by
      lower-casing and names no checkpoint. */
  lemma PrefixedNumberPlain(s: string)
    requires IsBuildingNumber(s)
    ensures IsTrimmed("тит." + s)
    ensures Lower("тит." + s) == "тит." + s
    ensures !Contains("тит." + s, "кпп")
  {
    var p := "тит." + s;
    BuildingNumberPlain(s);
    assert p[|p| - 1] == s[|s| - 1];
    assert Lower(p) == p by {
      assert forall i :: 4 <= i < |p| ==> p[i] == s[i - 4];
    }
    assert forall i :: 0 <= i < |p| ==> p[i] != 'к' by {
      assert forall i :: 4 <= i < |p| ==> p[i] == s[i - 4];
    }
    MissingCharNotContained(p, "кпп", 0);
  }

  /** Examples of the pattern: two to four digits, optionally followed by a
      slash and one digit, and nothing else. */
  lemma BuildingNumberShapes()
    ensures IsBuildingNumber("085") && IsBuildingNumber("1234") && IsBuildingNumber("12/3")
    ensures IsBuildingNumber("1234/5")
    ensures !IsBuildingNumber("7") && !IsBuildingNumber("12345") && !IsBuildingNumber("12/34")
    ensures !IsBuildingNumber("1/2") && !IsBuildingNumber("12a")
  {
    assert "1234/5"[..4] == "1234";
    assert "12/3"[..2] == "12";
    assert "12/34"[3] == '3';
    assert "12a"[2] == 'a';
    assert "1/2"[1] == '/';
  }

  /** Example: a bare building number gets the prefix. */
  lemma BuildingNumberExample()
    ensures FormatDirectionLabel("085") == "тит.085"
  {
    var s := "085";
    assert Trim(s) == s;
    assert !IsBlank(s);
    assert IsBuildingNumber(s);
    FormatDirectionLabelCases(s);
  }

  /** Example: `112` is the first checkpoint. */
  lemma CheckpointExample()
    ensures FormatDirectionLabel("112") == Checkpoint112
  {
    var s := "112";
    assert Trim(s) == s;
    assert !IsBlank(s);
    FormatDirectionLabelCases(s);
  }

  /** Example: a blank label is a dash. */
  lemma BlankExample()
    ensures FormatDirectionLabel(" ") == "—"
  {
    assert IsBlank(" ");
  }
}
