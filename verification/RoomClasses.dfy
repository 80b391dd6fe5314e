/** The room-class test depends on the words of a room name only, not on how
    the name is typed, and tells every vocabulary word from the others. */
module RoomClasses {
  import opened Models
  import opened Matching

  lemma {:induction false} FirstClassIsAWord(classes: seq<string>, text: string)
    requires forall k :: 0 <= k < |classes| ==> classes[k] != ""
    ensures var r := FirstClass(classes, text);
            r.Some? ==> r.value != "" && r.value in classes && Contains(text, r.value)
  {
    if classes != [] && !Contains(text, classes[0]) {
      FirstClassIsAWord(classes[1..], text);
    }
  }

  predicate Blank(s: string) {
    forall i :: 0 <= i < |s| ==> IsSpace(s[i])
  }

  /** What counts as a letter's lower case, and as white space. */
  lemma Characters()
    ensures Lower("ABCDEFGHIJKLMNOPQRSTUVWXYZ") == "abcdefghijklmnopqrstuvwxyz"
    ensures forall c :: c in " \t\n\r" ==> IsSpace(c)
    ensures forall c :: 'a' <= c <= 'z' || 'A' <= c <= 'Z' || '0' <= c <= '9' || c == '-' ==> !IsSpace(c)
  {
  }

  /** The word stands in the text, at `i`. */
  predicate StandsAt(text: string, word: string, i: nat) {
    i + |word| <= |text| && text[i..i + |word|] == word
  }

  ghost predicate Stands(text: string, word: string) {
    exists i: nat :: StandsAt(text, word, i)
  }

  lemma {:induction false} ContainsMeansSomewhere(text: string, word: string)
    ensures Contains(text, word) <==> Stands(text, word)
  {
    if |word| <= |text| {
      assert StandsAt(text, word, 0) <==> text[..|word|] == word;
      if text != "" {
        ContainsMeansSomewhere(text[1..], word);
        forall i: nat
          ensures StandsAt(text[1..], word, i) <==> StandsAt(text, word, i + 1)
        {
          if i + 1 + |word| <= |text| { assert text[1..][i..i + |word|] == text[i + 1..i + 1 + |word|]; }
        }
        if i: nat :| StandsAt(text, word, i) && i > 0 { assert StandsAt(text[1..], word, i - 1); }
        if i: nat :| StandsAt(text[1..], word, i) { assert StandsAt(text, word, i + 1); }
      }
    }
  }

  lemma {:induction false} FirstClassStandsFirst(classes: seq<string>, text: string)
    ensures FirstClass(classes, text).None? <==> forall k :: 0 <= k < |classes| ==> !Stands(text, classes[k])
    ensures FirstClass(classes, text).Some? ==>
              exists k :: 0 <= k < |classes| && FirstClass(classes, text) == Some(classes[k])
                          && Stands(text, classes[k])
                          && forall n :: 0 <= n < k ==> !Stands(text, classes[n])
  {
    hide Contains, Stands;
    if classes != [] {
      ContainsMeansSomewhere(text, classes[0]);
      if !Contains(text, classes[0]) {
        var rest := classes[1..];
        FirstClassStandsFirst(rest, text);
        assert forall k :: 1 <= k < |classes| ==> classes[k] == rest[k - 1];
        if FirstClass(rest, text).Some? {
          var k :| 0 <= k < |rest| && FirstClass(rest, text) == Some(rest[k]) && Stands(text, rest[k])
                   && forall n :: 0 <= n < k ==> !Stands(text, rest[n]);
          assert classes[k + 1] == rest[k];
          assert forall n :: 0 <= n < k + 1 ==> !Stands(text, classes[n]);
        }
      }
    }
  }

  /** The vocabulary, and that the class is the first of its words, in this order,
      that stands anywhere in the tidied name. */
  lemma {:induction false} ClassIsTheFirstWord(name: string)
    ensures var words := ["presidential", "penthouse", "junior suite", "suite", "executive", "premium", "deluxe",
                          "luxury", "superior", "comfort", "classic", "standard", "economy", "budget"];
            var text := Normalize(name);
            && RoomClass(None) == None
            && (RoomClass(Some(name)).None? ==> forall k :: 0 <= k < 14 ==> !Stands(text, words[k]))
            && (RoomClass(Some(name)).Some? ==>
                  exists k :: 0 <= k < 14 && RoomClass(Some(name)) == Some(words[k]) && Stands(text, words[k])
                              && forall n :: 0 <= n < k ==> !Stands(text, words[n]))
  {
    FirstClassStandsFirst(ROOM_CLASSES, Normalize(name));
    if name == "" { EmptyNameHasNoWord(); }
    hide FirstClass, Normalize, Stands;
  }

  lemma EmptyNameHasNoWord()
    ensures FirstClass(ROOM_CLASSES, Normalize("")).None?
  {
    NormalizeEmpty();
    EmptyHasNoClass("");
    hide FirstClass;
  }

  lemma {:induction false} DropSpacesBlank(u: string, s: string)
    requires Blank(u)
    ensures DropSpaces(u + s) == DropSpaces(s)
  {
    if u == "" {
      assert u + s == s;
    } else {
      assert (u + s)[1..] == u[1..] + s;
      DropSpacesBlank(u[1..], s);
    }
  }

  /** Leading blanks of a prefix go; if the prefix is all blank, so does it. */
  lemma {:induction false} DropSpacesPrefix(a: string, s: string)
    ensures Blank(a) ==> DropSpaces(a) == ""
    ensures !Blank(a) ==> DropSpaces(a) != "" && DropSpaces(a + s) == DropSpaces(a) + s
  {
    if a == "" {
    } else {
      assert (a + s)[1..] == a[1..] + s;
      if IsSpace(a[0]) {
        DropSpacesPrefix(a[1..], s);
        assert Blank(a[1..]) ==> Blank(a);
      }
    }
  }

  /** How wide a gap inside a name is does not matter. */
  lemma {:induction false} GapWidth(a: string, u: string, v: string, b: string)
    requires u != "" && Blank(u) && v != "" && Blank(v)
    ensures Collapse(a + u + b) == Collapse(a + v + b)
    decreases |a|
  {
    if a == "" {
      assert a + u + b == u + b && a + v + b == v + b;
      DropSpacesBlank(u, b);
      DropSpacesBlank(v, b);
    } else if !IsSpace(a[0]) {
      assert (a + u + b)[1..] == a[1..] + u + b;
      assert (a + v + b)[1..] == a[1..] + v + b;
      GapWidth(a[1..], u, v, b);
    } else {
      assert a + u + b == a + (u + b) && a + v + b == a + (v + b);
      DropSpacesPrefix(a, u + b);
      DropSpacesPrefix(a, v + b);
      if Blank(a) {
        assert Blank(a + u) && Blank(a + v);
        DropSpacesBlank(a + u, b);
        DropSpacesBlank(a + v, b);
      } else {
        var t := DropSpaces(a);
        assert t + (u + b) == t + u + b && t + (v + b) == t + v + b;
        DropSpacesShrinks(a);
        GapWidth(t, u, v, b);
      }
    }
  }

  lemma DropSpacesShrinks(s: string)
    requires s != "" && IsSpace(s[0])
    ensures |DropSpaces(s)| < |s|
  {
  }

  lemma {:induction false} LeadingBlanks(u: string, s: string)
    requires Blank(u)
    ensures Strip(Collapse(u + s)) == Strip(Collapse(s))
  {
    if u == "" {
      assert u + s == s;
    } else {
      DropSpacesBlank(u, s);
      var t := Collapse(DropSpaces(s));
      assert Collapse(u + s) == " " + t;
      assert (" " + t)[1..] == t;
      if s != "" && !IsSpace(s[0]) {
        assert DropSpaces(s) == s;
      }
    }
  }

  lemma {:induction false} CollapseTrailing(s: string, u: string)
    requires u != "" && Blank(u)
    ensures Collapse(s + u) == Collapse(s) || Collapse(s + u) == Collapse(s) + " "
    decreases |s|
  {
    DropSpacesPrefix(u, "");
    if s == "" {
      assert s + u == u;
    } else if !IsSpace(s[0]) {
      assert (s + u)[1..] == s[1..] + u;
      CollapseTrailing(s[1..], u);
    } else {
      DropSpacesPrefix(s, u);
      if Blank(s) {
        assert Blank(s + u);
        DropSpacesPrefix(s + u, "");
      } else {
        DropSpacesShrinks(s);
        CollapseTrailing(DropSpaces(s), u);
        assert " " + (Collapse(DropSpaces(s)) + " ") == (" " + Collapse(DropSpaces(s))) + " ";
      }
    }
  }

  lemma {:induction false} TrailingBlanks(s: string, u: string)
    requires Blank(u)
    ensures Strip(Collapse(s + u)) == Strip(Collapse(s))
  {
    if u == "" {
      assert s + u == s;
    } else {
      CollapseTrailing(s, u);
      var t := Collapse(s);
      if Collapse(s + u) == t + " " {
        DropSpacesPrefix(t, " ");
        if Blank(t) {
          assert Blank(t + " ");
          DropSpacesPrefix(t + " ", "");
        } else {
          var d := DropSpaces(t);
          assert (d + " ")[..|d + " "| - 1] == d;
        }
      }
    }
  }

  lemma EmptyHasNoClass(s: string)
    requires Normalize(s) == ""
    ensures FirstClass(ROOM_CLASSES, Normalize(s)).None?
  {
    FirstClassIsAWord(ROOM_CLASSES, Normalize(s));
  }

  lemma NormalizeEmpty()
    ensures Normalize("") == ""
  {
  }

  /** Two names with the same normal form are the same room class. */
  lemma {:induction false} SameNormalFormSameClass(a: string, b: string)
    requires Normalize(a) == Normalize(b)
    ensures RoomClass(Some(a)) == RoomClass(Some(b))
  {
    NormalizeEmpty();
    if a == "" { EmptyHasNoClass(b); }
    if b == "" { EmptyHasNoClass(a); }
  }

  /** White space is only ever a separator: its amount and kind, and blanks at
      either end, never change the class. */
  lemma {:induction false} RoomClassIgnoresSpacing(p: string, a: string, u: string, v: string, b: string, q: string)
    requires Blank(p) && Blank(q) && u != "" && Blank(u) && v != "" && Blank(v)
    ensures RoomClass(Some(p + (a + u + b) + q)) == RoomClass(Some(a + v + b))
  {
    var s := a + u + b;
    TrailingBlanks(p + s, q);
    LeadingBlanks(p, s);
    GapWidth(a, u, v, b);
    SameNormalFormSameClass(p + s + q, a + v + b);
  }

  lemma {:induction false} LowerDropSpaces(s: string)
    ensures DropSpaces(Lower(s)) == Lower(DropSpaces(s))
  {
    if s != "" {
      assert Lower(s)[1..] == Lower(s[1..]);
      LowerDropSpaces(s[1..]);
    }
  }

  lemma {:induction false} LowerDropTrailing(s: string)
    ensures DropTrailing(Lower(s)) == Lower(DropTrailing(s))
  {
    if s != "" {
      assert Lower(s)[..|s| - 1] == Lower(s[..|s| - 1]);
      LowerDropTrailing(s[..|s| - 1]);
    }
  }

  lemma {:induction false} LowerCollapse(s: string)
    ensures Collapse(Lower(s)) == Lower(Collapse(s))
    decreases |s|
  {
    if s == "" {
    } else if IsSpace(s[0]) {
      LowerDropSpaces(s);
      DropSpacesShrinks(s);
      LowerCollapse(DropSpaces(s));
      assert Lower(" " + Collapse(DropSpaces(s))) == " " + Lower(Collapse(DropSpaces(s)));
    } else {
      LowerCollapse(s[1..]);
      assert Lower(s)[1..] == Lower(s[1..]);
      assert Lower([s[0]] + Collapse(s[1..])) == [LowerChar(s[0])] + Lower(Collapse(s[1..]));
    }
  }

  lemma {:induction false} NormalizeLower(s: string)
    ensures Normalize(Lower(s)) == Normalize(s)
  {
    LowerCollapse(s);
    LowerDropSpaces(Collapse(s));
    LowerDropTrailing(DropSpaces(Collapse(s)));
    assert Lower(Lower(Strip(Collapse(s)))) == Lower(Strip(Collapse(s)));
  }

  /** Names that differ in letter case only are the same room class. */
  lemma {:induction false} RoomClassIgnoresCase(a: string, b: string)
    requires Lower(a) == Lower(b)
    ensures RoomClass(Some(a)) == RoomClass(Some(b))
  {
    NormalizeLower(a);
    NormalizeLower(b);
    SameNormalFormSameClass(a, b);
  }

  lemma {:induction false} LettersOf(text: string, word: string, c: char)
    requires c in word && c !in text
    ensures !Contains(text, word)
  {
    if |word| <= |text| && text != "" {
      LettersOf(text[1..], word, c);
    }
  }

  lemma {:induction false} SkipClasses(classes: seq<string>, k: nat, text: string)
    requires k <= |classes|
    requires forall i :: 0 <= i < k ==> !Contains(text, classes[i])
    ensures FirstClass(classes, text) == FirstClass(classes[k..], text)
  {
    if k > 0 {
      SkipClasses(classes[1..], k - 1, text);
      assert classes[1..][k - 1..] == classes[k..];
    }
  }

  /** Word `v` cannot occur in word `w`: it is longer, or has a letter, `c`,
      that `w` lacks. */
  predicate Foreign(v: string, w: string, c: char) {
    |w| < |v| || (c in v && c !in w)
  }

  lemma {:induction false} WordIsItsOwnClass(k: nat, why: string)
    requires k < |ROOM_CLASSES| && |why| == k
    requires forall i :: 0 <= i < k ==> Foreign(ROOM_CLASSES[i], ROOM_CLASSES[k], why[i])
    ensures FirstClass(ROOM_CLASSES, ROOM_CLASSES[k]) == Some(ROOM_CLASSES[k])
  {
    var w := ROOM_CLASSES[k];
    forall i | 0 <= i < k
      ensures !Contains(w, ROOM_CLASSES[i])
    {
      if |ROOM_CLASSES[i]| <= |w| { LettersOf(w, ROOM_CLASSES[i], why[i]); }
    }
    SkipClasses(ROOM_CLASSES, k, w);
    assert ROOM_CLASSES[k..][0] == w;
    assert w[..|w|] == w;
  }

  /** The letter that tells each word from every earlier one ('-': it is longer). */
  const TELLTALE: seq<string> := [
    "",
    "-",
    "pp",
    "---",
    "-p-s",
    "---s-",
    "---s--",
    "---s--d",
    "---t-mdl",
    "---s-pdl-",
    "---u-pdu-o",
    "---u-pelucc",
    "---s-pdl-fl-",
    "---s--ll-----"]

  lemma {:induction false} VocabularyIsForeign(k: nat, i: nat)
    requires i < k < |ROOM_CLASSES|
    ensures |TELLTALE| == |ROOM_CLASSES| && |TELLTALE[k]| == k
    ensures Foreign(ROOM_CLASSES[i], ROOM_CLASSES[k], TELLTALE[k][i])
  {
  }

  /** No capitals, single blanks between words, none at the ends. */
  predicate Tidy(w: string) {
    && w != "" && !IsSpace(w[0]) && !IsSpace(w[|w| - 1])
    && forall i :: 0 <= i < |w| ==>
         LowerChar(w[i]) == w[i] && (IsSpace(w[i]) ==> w[i] == ' ' && i + 1 < |w| && !IsSpace(w[i + 1]))
  }

  lemma {:induction false} TidyCollapse(w: string, i: nat)
    requires Tidy(w) && i <= |w|
    ensures Collapse(w[i..]) == w[i..]
    decreases |w| - i
  {
    if i < |w| {
      TidyCollapse(w, i + 1);
      assert w[i..][1..] == w[i + 1..];
      if IsSpace(w[i]) { assert DropSpaces(w[i..]) == w[i + 1..]; }
    }
  }

  lemma {:induction false} TidyIsNormal(w: string)
    requires Tidy(w)
    ensures Normalize(w) == w
  {
    TidyCollapse(w, 0);
    assert w[0..] == w;
    assert Strip(w) == w;
  }

  /** A lower-case word. */
  predicate Letters(w: string) {
    w != "" && forall c :: c in w ==> 'a' <= c <= 'z'
  }

  lemma {:induction false} LettersAreTidy(w: string)
    requires Letters(w)
    ensures Tidy(w)
  {
    assert w[0] in w && w[|w| - 1] in w;
    forall i | 0 <= i < |w|
      ensures LowerChar(w[i]) == w[i] && !IsSpace(w[i])
    {
      assert w[i] in w;
    }
  }

  lemma {:induction false} TwoWordsAreTidy(a: string, b: string)
    requires Letters(a) && Letters(b)
    ensures Tidy(a + " " + b)
  {
    LettersAreTidy(a);
    LettersAreTidy(b);
    var w := a + " " + b;
    assert w[0] == a[0] && w[|w| - 1] == b[|b| - 1];
    forall i | 0 <= i < |w|
      ensures LowerChar(w[i]) == w[i] && (IsSpace(w[i]) ==> w[i] == ' ' && i + 1 < |w| && !IsSpace(w[i + 1]))
    {
      if i < |a| {
        assert w[i] == a[i] && a[i] in a;
      } else if i == |a| {
        assert w[i + 1] == b[0];
      } else {
        assert w[i] == b[i - |a| - 1] && b[i - |a| - 1] in b;
      }
    }
  }

  lemma {:induction false} VocabularyIsTidy(k: nat)
    requires k < |ROOM_CLASSES|
    ensures Tidy(ROOM_CLASSES[k])
  {
    if k == 2 {
      TwoWordsAreTidy("junior", "suite");
      assert "junior" + " " + "suite" == "junior suite";
    } else {
      LettersAreTidy(ROOM_CLASSES[k]);
    }
  }

  lemma {:induction false} VocabularyIsForeignToEarlier(k: nat) returns (why: string)
    requires k < |ROOM_CLASSES|
    ensures |why| == k && forall i :: 0 <= i < k ==> Foreign(ROOM_CLASSES[i], ROOM_CLASSES[k], why[i])
  {
    if k == 0 { return ""; }
    VocabularyIsForeign(k, 0);
    why := TELLTALE[k];
    forall i | 0 <= i < k
      ensures Foreign(ROOM_CLASSES[i], ROOM_CLASSES[k], why[i])
    {
      VocabularyIsForeign(k, i);
    }
  }

  lemma {:induction false} ClassOfTidyWord(w: string)
    requires Tidy(w) && FirstClass(ROOM_CLASSES, w) == Some(w)
    ensures RoomClass(Some(w)) == Some(w)
  {
    TidyIsNormal(w);
  }

  /** Every vocabulary word names its own class. */
  lemma {:induction false} WordNamesItself(k: nat)
    requires k < |ROOM_CLASSES|
    ensures RoomClass(Some(ROOM_CLASSES[k])) == Some(ROOM_CLASSES[k])
  {
    VocabularyIsTidy(k);
    var why := VocabularyIsForeignToEarlier(k);
    WordIsItsOwnClass(k, why);
    ClassOfTidyWord(ROOM_CLASSES[k]);
  }

  /** Reading the class of a class changes nothing. */
  lemma {:induction false} RoomClassIsIdempotent(name: Option<string>)
    ensures RoomClass(name).Some? ==> RoomClass(RoomClass(name)) == RoomClass(name)
  {
    if RoomClass(name).Some? {
      FirstClassIsAWord(ROOM_CLASSES, Normalize(name.value));
      var k :| 0 <= k < |ROOM_CLASSES| && ROOM_CLASSES[k] == RoomClass(name).value;
      WordNamesItself(k);
    }
  }

  // ---------------------------------------------------------------- junior suites

  lemma {:induction false} JuniorSuiteComesFirst(name: string)
    requires Contains(Normalize(name), "junior suite")
    ensures RoomClass(Some(name)) != Some("suite")
  {
    var text := Normalize(name);
    var c := ROOM_CLASSES;
    assert c[1..][0] == "penthouse" && c[1..][1..][0] == "junior suite";
    assert FirstClass(c, text) == if Contains(text, c[0]) then Some(c[0]) else FirstClass(c[1..], text);
    assert FirstClass(c[1..], text) == if Contains(text, c[1]) then Some(c[1]) else FirstClass(c[1..][1..], text);
    assert FirstClass(c[1..][1..], text) == Some("junior suite");
    assert "presidential" != "suite" by { assert |"presidential"| == 12 && |"suite"| == 5; }
    assert "penthouse" != "suite" by { assert |"penthouse"| == 9 && |"suite"| == 5; }
    assert "junior suite" != "suite" by { assert |"junior suite"| == 12 && |"suite"| == 5; }
  }

  lemma {:induction false} CollapseTidyPrefix(w: string, i: nat, b: string)
    requires Tidy(w) && i <= |w|
    ensures Collapse(w[i..] + b) == w[i..] + Collapse(b)
    decreases |w| - i
  {
    if i < |w| {
      CollapseTidyPrefix(w, i + 1, b);
      assert (w[i..] + b)[1..] == w[i + 1..] + b;
      if IsSpace(w[i]) { assert DropSpaces(w[i..] + b) == w[i + 1..] + b; }
    } else {
      assert w[i..] + b == b;
    }
  }

  /** White space around a tidy word collapses without touching the word. */
  lemma {:induction false} CollapseAround(a: string, w: string, b: string) returns (p: string)
    requires Tidy(w)
    ensures Collapse(a + w + b) == p + w + Collapse(b)
    decreases |a|
  {
    if a == "" {
      CollapseTidyPrefix(w, 0, b);
      assert a + w + b == w[0..] + b;
      p := "";
    } else if !IsSpace(a[0]) {
      var q := CollapseAround(a[1..], w, b);
      assert (a + w + b)[1..] == a[1..] + w + b;
      p := [a[0]] + q;
    } else {
      DropSpacesShrinks(a);
      var d := DropSpaces(a);
      DropSpacesBefore(a, w, b);
      var q := CollapseAround(d, w, b);
      p := " " + q;
    }
  }

  lemma {:induction false} DropSpacesBefore(a: string, w: string, b: string)
    requires w != "" && !IsSpace(w[0])
    ensures DropSpaces(a + w + b) == DropSpaces(a) + w + b
  {
    assert a + w + b == a + (w + b);
    DropSpacesPrefix(a, w + b);
    if Blank(a) {
      DropSpacesBlank(a, w + b);
      assert DropSpaces(w + b) == w + b;
      assert "" + w + b == w + b;
    } else {
      assert DropSpaces(a) + (w + b) == DropSpaces(a) + w + b;
    }
  }

  lemma {:induction false} DropTrailingAround(p: string, w: string, q: string) returns (q': string)
    requires w != "" && !IsSpace(w[|w| - 1])
    ensures DropTrailing(p + w + q) == p + w + q'
  {
    var s := p + w + q;
    if q != "" && IsSpace(q[|q| - 1]) {
      assert s[..|s| - 1] == p + w + q[..|q| - 1];
      q' := DropTrailingAround(p, w, q[..|q| - 1]);
    } else {
      assert q == "" ==> s == p + w;
      q' := q;
    }
  }

  lemma {:induction false} ContainsMiddle(p: string, w: string, q: string)
    ensures Contains(p + w + q, w)
  {
    if p == "" {
      assert (p + w + q)[..|w|] == w;
    } else {
      assert (p + w + q)[1..] == p[1..] + w + q;
      ContainsMiddle(p[1..], w, q);
    }
  }

  lemma {:induction false} LowerAppend(x: string, y: string)
    ensures Lower(x + y) == Lower(x) + Lower(y)
  {
  }

  lemma {:induction false} StripAround(p: string, w: string, c: string) returns (p': string, c': string)
    requires w != "" && !IsSpace(w[0]) && !IsSpace(w[|w| - 1])
    ensures Strip(p + w + c) == p' + w + c'
  {
    assert p + w + c == p + (w + c);
    if Blank(p) {
      DropSpacesBlank(p, w + c);
      assert DropSpaces(w + c) == w + c;
      p' := "";
      assert p' + w + c == w + c;
    } else {
      DropSpacesPrefix(p, w + c);
      p' := DropSpaces(p);
      assert p' + (w + c) == p' + w + c;
    }
    c' := DropTrailingAround(p', w, c);
  }

  lemma {:induction false} NormalizeKeepsWord(a: string, w: string, b: string)
    requires Tidy(w)
    ensures Contains(Normalize(a + w + b), w)
  {
    var p := CollapseAround(a, w, b);
    var p', c' := StripAround(p, w, Collapse(b));
    LowerAppend(p' + w, c');
    LowerAppend(p', w);
    assert Lower(w) == w;
    ContainsMiddle(Lower(p'), w, Lower(c'));
  }

  lemma {:induction false} TidyJuniorSuite(a: string, b: string)
    ensures RoomClass(Some(a + "junior suite" + b)) != Some("suite")
  {
    TwoWordsAreTidy("junior", "suite");
    assert "junior" + " " + "suite" == "junior suite";
    NormalizeKeepsWord(a, "junior suite", b);
    JuniorSuiteComesFirst(a + "junior suite" + b);
  }

  lemma {:induction false} LowerBlank(u: string)
    requires Blank(u)
    ensures Lower(u) == u
  {
    forall i | 0 <= i < |u|
      ensures LowerChar(u[i]) == u[i]
    {
      assert IsSpace(u[i]);
    }
  }

  /** Lower case and a single blank turn the two words into the vocabulary's. */
  lemma {:induction false} LowerJuniorSuite(a: string, junior: string, suite: string, b: string)
    requires Lower(junior) == "junior" && Lower(suite) == "suite"
    ensures Lower((a + junior) + " " + (suite + b)) == Lower(a) + "junior suite" + Lower(b)
  {
    LowerAppend((a + junior) + " ", suite + b);
    LowerAppend(a + junior, " ");
    LowerBlank(" ");
    LowerAppend(a, junior);
    LowerAppend(suite, b);
    hide Lower;
    var x, y := Lower(a), Lower(b);
    assert "junior" + " " + "suite" == "junior suite";
    assert (x + "junior") + " " + ("suite" + y) == x + ("junior" + " " + "suite") + y;
  }

  /** A name with the words "junior suite" in it, in any letter case, with any
      white space between them and anything around them, is never classed as a
      suite. */
  lemma {:induction false} JuniorSuiteIsNotSuite(a: string, junior: string, gap: string, suite: string, b: string)
    requires Lower(junior) == "junior" && Lower(suite) == "suite" && gap != "" && Blank(gap)
    ensures RoomClass(Some((a + junior) + gap + (suite + b))) != Some("suite")
  {
    hide RoomClass, Lower;
    var front, back := a + junior, suite + b;
    RoomClassIgnoresSpacing("", front, gap, " ", back, "");
    var wide, narrow := front + gap + back, front + " " + back;
    assert "" + wide + "" == wide;
    LowerJuniorSuite(a, junior, suite, b);
    LowerTwice(narrow);
    RoomClassIgnoresCase(narrow, Lower(narrow));
    TidyJuniorSuite(Lower(a), Lower(b));
  }

  lemma LowerTwice(s: string)
    ensures Lower(Lower(s)) == Lower(s)
  {
  }
}
