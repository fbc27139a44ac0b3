/** Which report rows and classes belong to a sales rep. */
module Reps {
  import opened Texts

  function FirstWord(s: string): (w: string)
    ensures forall c | c in w :: !IsSpace(c)
  {
    if s == "" || IsSpace(s[0]) then "" else [s[0]] + FirstWord(s[1..])
  }

  predicate IsNameOrSub(row: string, name: string) { row == name || name + "/" <= row }

  /** The full name, `name/...`, or the first name (three letters or more) alone or as `first/...`. */
  predicate MatchesRep(rowName: string, repName: string) {
    var row, rep := Lower(Trim(rowName)), Lower(Trim(repName));
    row != "" && rep != "" &&
    (IsNameOrSub(row, rep) || (|FirstWord(rep)| >= 3 && IsNameOrSub(row, FirstWord(rep))))
  }

  lemma SubNeedsSlash(row: string, name: string)
    requires IsNameOrSub(row, name)
    ensures row == name || '/' in row
  {
    if row != name {
      var sub := name + "/";
      assert sub[|name|] == '/' && row[..|sub|] == sub;
      assert row[|name|] in row;
    }
  }

  /** A row called "Not Specified" counts only for a rep of that very name. */
  lemma NotSpecifiedIsNobody(rowName: string, repName: string)
    requires Lower(Trim(rowName)) == "not specified"
    requires MatchesRep(rowName, repName)
    ensures Lower(Trim(repName)) == "not specified"
  {
    var row, rep := Lower(Trim(rowName)), Lower(Trim(repName));
    assert '/' !in row && row[3] in row && IsSpace(row[3]);
    if IsNameOrSub(row, rep) {
      SubNeedsSlash(row, rep);
    } else {
      SubNeedsSlash(row, FirstWord(rep));
    }
  }

  // ---- which names match ----

  /** The characters up to the first white space. */
  predicate IsFirstWord(w: string, s: string) {
    w <= s && (forall c | c in w :: !IsBlank(c)) && (w == s || IsBlank(s[|w|]))
  }

  lemma {:induction false} FirstWordIff(s: string, w: string)
    ensures FirstWord(s) == w <==> IsFirstWord(w, s)
    decreases |s|
  {
    if s == "" || IsSpace(s[0]) {
      if w != "" && w <= s {
        assert w[0] == s[0] && w[0] in w;
      }
    } else if w == "" {
    } else {
      FirstWordIff(s[1..], w[1..]);
      assert w == [w[0]] + w[1..] && s == [s[0]] + s[1..];
      if w <= s {
        assert w[0] == s[0] && forall c | c in w :: c == w[0] || c in w[1..];
      }
    }
  }

  lemma {:induction false} FirstWordOfLower(s: string)
    ensures FirstWord(Lower(s)) == Lower(FirstWord(s))
  {
    if s == "" || IsSpace(s[0]) {
    } else {
      FirstWordOfLower(s[1..]);
    }
  }

  /** `row` is the name itself or something behind the name and a slash, whatever the case of the letters. */
  predicate IsUnder(row: string, name: string) {
    SameLetters(row, name) || (|name| < |row| && row[|name|] == '/' && SameLetters(row[..|name|], name))
  }

  lemma UnderIff(row: string, name: string)
    ensures IsNameOrSub(Lower(row), Lower(name)) <==> IsUnder(row, name)
  {
    LowerIff(row, name);
    if |name| < |row| {
      LowerAt(row, |name|);
      LowerIff(row[..|name|], name);
      var sub := Lower(name) + "/";
      assert sub <= Lower(row) <==> Lower(row)[..|name|] == Lower(name) && Lower(row)[|name|] == '/' by {
        assert |sub| <= |Lower(row)|;
        if sub <= Lower(row) {
          assert Lower(row)[..|sub|] == sub && Lower(row)[..|name|] == sub[..|name|];
        }
        if Lower(row)[..|name|] == Lower(name) && Lower(row)[|name|] == '/' {
          assert Lower(row)[..|sub|] == sub;
        }
      }
    }
  }

  /** The rep's name without the white space around it, or its first word when that has three characters or more. */
  ghost predicate IsCalled(repName: string, name: string) {
    exists rep :: IsTrimOf(repName, rep) && rep != "" && (name == rep || (|name| >= 3 && IsFirstWord(name, rep)))
  }

  /** A row belongs to a rep exactly if it is, or is under, a name by which the rep is called. */
  lemma MatchesIff(rowName: string, repName: string)
    ensures MatchesRep(rowName, repName) <==>
            exists row, name :: IsTrimOf(rowName, row) && IsCalled(repName, name) && IsUnder(row, name)
  {
    var row, rep := Trim(rowName), Trim(repName);
    var first := FirstWord(rep);
    TrimIff(rowName, row);
    TrimIff(repName, rep);
    FirstWordIff(rep, first);
    FirstWordOfLower(rep);
    UnderIff(row, rep);
    UnderIff(row, first);
    if MatchesRep(rowName, repName) {
      assert IsUnder(row, rep) || (|first| >= 3 && IsUnder(row, first));
      assert IsCalled(repName, if IsUnder(row, rep) then rep else first);
    }
    if other, name :| IsTrimOf(rowName, other) && IsCalled(repName, name) && IsUnder(other, name) {
      TrimIff(rowName, other);
      var called :| IsTrimOf(repName, called) && called != ""
                    && (name == called || (|name| >= 3 && IsFirstWord(name, called)));
      TrimIff(repName, called);
      FirstWordIff(rep, name);
    }
  }
}
