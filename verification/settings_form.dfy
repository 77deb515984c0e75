/**
 * The settings form's handling of the domains list: the stored list is shown
 * one domain per line, and the submitted text is trimmed, has its CRLF line
 * ends turned into LF and is split into entries at each LF.
 */
module SettingsForm {
  import opened Php

  const SettingsName := "multi_domain_login.settings"
  const FormId := "multi_domain_login"

  /** The characters PHP's trim() removes: space, tab, LF, CR, NUL and vertical tab. */
  predicate Blank(c: char) {
    c == ' ' || c == '\t' || c == '\n' || c == '\r' || c == '\U{0000}' || c == '\U{000B}'
  }

  function Count(c: char, s: string): (n: nat)
    ensures n <= |s|
  {
    if s == [] then 0 else (if s[0] == c then 1 else 0) + Count(c, s[1..])
  }

  /** Leading blanks removed: a suffix of `s` preceded only by blanks. */
  function TrimLeft(s: string): (r: string)
    ensures |r| <= |s| && r == s[|s| - |r|..]
    ensures forall i :: 0 <= i < |s| - |r| ==> Blank(s[i])
    ensures r != [] ==> !Blank(r[0])
  {
    if s != [] && Blank(s[0]) then
      var r := TrimLeft(s[1..]);
      assert s[1..][|s| - 1 - |r|..] == s[|s| - |r|..];
      r
    else s
  }

  /** Trailing blanks removed: a prefix of `s` followed only by blanks. */
  function TrimRight(s: string): (r: string)
    ensures |r| <= |s| && r == s[..|r|]
    ensures forall i :: |r| <= i < |s| ==> Blank(s[i])
    ensures r != [] ==> !Blank(r[|r| - 1])
  {
    if s != [] && Blank(s[|s| - 1]) then
      var r := TrimRight(s[..|s| - 1]);
      assert s[..|s| - 1][..|r|] == s[..|r|];
      r
    else s
  }

  /** PHP's trim(): the middle of `s` once the blanks at both ends are cut off. */
  function Trim(s: string): (r: string)
    ensures r != [] ==> !Blank(r[0]) && !Blank(r[|r| - 1])
    ensures exists i, j :: 0 <= i <= j <= |s| && r == s[i..j] &&
                           (forall k :: 0 <= k < i ==> Blank(s[k])) &&
                           (forall k :: j <= k < |s| ==> Blank(s[k]))
  {
    var left := TrimLeft(s);
    var r := TrimRight(left);
    var i := |s| - |left|;
    assert left == s[i..];
    assert r == s[i..i + |r|];
    r
  }

  /** Text without blanks at either end is its own trim. */
  lemma {:induction false} TrimKeepsTrimmed(s: string)
    requires s != [] ==> !Blank(s[0]) && !Blank(s[|s| - 1])
    ensures Trim(s) == s
  {
  }

  /** `str_replace("\r\n", "\n", $s)`: one left-to-right pass over non-overlapping CRLF pairs. */
  function ReplaceCrlf(s: string): (r: string)
    ensures |r| <= |s|
    ensures Count('\n', r) == Count('\n', s)
    ensures '\r' !in s ==> r == s
    decreases |s|
  {
    if s == [] then []
    else if |s| >= 2 && s[0] == '\r' && s[1] == '\n' then "\n" + ReplaceCrlf(s[2..])
    else [s[0]] + ReplaceCrlf(s[1..])
  }

  /** The replacement is a single pass: a CR before a CRLF pair is left in front of the LF. */
  lemma SinglePassLeavesCr()
    ensures ReplaceCrlf("\r\r\n") == "\r\n"
  {
  }

  /** `explode("\n", $s)`: never empty, one more piece than there are LFs. */
  function Explode(s: string): (r: seq<string>)
    ensures |r| == Count('\n', s) + 1
    ensures forall i :: 0 <= i < |r| ==> '\n' !in r[i]
  {
    if s == [] then [""]
    else if s[0] == '\n' then [""] + Explode(s[1..])
    else
      var rest := Explode(s[1..]);
      [[s[0]] + rest[0]] + rest[1..]
  }

  lemma {:induction false} CountAppend(c: char, a: string, b: string)
    ensures Count(c, a + b) == Count(c, a) + Count(c, b)
  {
    if a != [] {
      assert (a + b)[1..] == a[1..] + b;
      CountAppend(c, a[1..], b);
    } else {
      assert a + b == b;
    }
  }

  lemma {:induction false} CountAbsent(c: char, s: string)
    ensures c !in s ==> Count(c, s) == 0
  {
    if s != [] {
      CountAbsent(c, s[1..]);
    }
  }

  /** `implode("\n", $entries)`. */
  function Implode(entries: seq<string>): string {
    if entries == [] then ""
    else if |entries| == 1 then entries[0]
    else entries[0] + "\n" + Implode(entries[1..])
  }

  /**
   * The shown text starts with the first entry and, when no entry holds a
   * LF, has exactly one LF between neighbouring entries and no other.
   */
  lemma {:induction false} ImplodeSeparators(entries: seq<string>)
    ensures |entries| >= 1 ==> StartsWith(Implode(entries), entries[0])
    ensures (forall i :: 0 <= i < |entries| ==> '\n' !in entries[i]) ==>
              Count('\n', Implode(entries)) == if entries == [] then 0 else |entries| - 1
  {
    if |entries| == 1 {
      CountAbsent('\n', entries[0]);
    } else if |entries| > 1 {
      var rest := Implode(entries[1..]);
      ImplodeSeparators(entries[1..]);
      CountAbsent('\n', entries[0]);
      CountAppend('\n', entries[0] + "\n", rest);
      CountAppend('\n', entries[0], "\n");
      assert (entries[0] + "\n" + rest)[..|entries[0]|] == entries[0];
    }
  }

  /**
   * `implode("\r\n", $entries)`: a shown list as a browser submits the
   * textarea back, with CRLF line breaks.
   */
  function ImplodeCrlf(entries: seq<string>): string {
    if entries == [] then ""
    else if |entries| == 1 then entries[0]
    else entries[0] + "\r\n" + ImplodeCrlf(entries[1..])
  }

  /** Splitting off the first character of a concatenation. */
  lemma ConsAppend(a: string, b: string)
    requires a != []
    ensures a + b == [a[0]] + (a[1..] + b)
  {
  }

  /** A character other than CR is copied and the replacement goes on with the rest. */
  lemma ReplaceCrlfCons(c: char, rest: string)
    requires c != '\r'
    ensures ReplaceCrlf([c] + rest) == [c] + ReplaceCrlf(rest)
  {
    assert ([c] + rest)[1..] == rest;
  }

  /** The replacement copies text without CR unchanged and carries on after it. */
  lemma {:induction false} ReplaceCrlfSkipsCrFree(a: string, b: string)
    requires '\r' !in a
    ensures ReplaceCrlf(a + b) == a + ReplaceCrlf(b)
  {
    if a != [] {
      ConsAppend(a, b);
      ReplaceCrlfCons(a[0], a[1..] + b);
      assert '\r' !in a[1..] by {
        forall c | c in a[1..] ensures c in a { }
      }
      ReplaceCrlfSkipsCrFree(a[1..], b);
      ConsAppend(a, ReplaceCrlf(b));
    } else {
      assert a + b == b;
    }
  }

  /** Between CR-free entries, every CRLF line break becomes a LF. */
  lemma {:induction false} CrlfJoinBecomesLfJoin(entries: seq<string>)
    requires forall i :: 0 <= i < |entries| ==> '\r' !in entries[i]
    ensures ReplaceCrlf(ImplodeCrlf(entries)) == Implode(entries)
  {
    if |entries| > 1 {
      CrlfJoinBecomesLfJoin(entries[1..]);
      var rest := ImplodeCrlf(entries[1..]);
      assert entries[0] + "\r\n" + rest == entries[0] + ("\r\n" + rest);
      ReplaceCrlfSkipsCrFree(entries[0], "\r\n" + rest);
      assert ("\r\n" + rest)[2..] == rest;
    }
  }

  /** Joining the pieces of a split gives back the text. */
  lemma {:induction false} ImplodeExplode(s: string)
    ensures Implode(Explode(s)) == s
  {
    if s == [] {
    } else if s[0] == '\n' {
      ImplodeExplode(s[1..]);
      var rest := Explode(s[1..]);
      assert Explode(s) == [""] + rest;
      assert s == "" + "\n" + s[1..];
    } else {
      ImplodeExplode(s[1..]);
      var rest := Explode(s[1..]);
      var r := Explode(s);
      assert r[0] == [s[0]] + rest[0] && r[1..] == rest[1..];
      if |rest| == 1 {
        assert s == [s[0]] + rest[0];
      } else {
        assert Implode(rest) == rest[0] + "\n" + Implode(rest[1..]);
        assert s == ([s[0]] + rest[0]) + "\n" + Implode(rest[1..]);
      }
    }
  }

  /** Splitting an entry without LF that is followed by a LF. */
  lemma {:induction false} ExplodeLine(a: string, b: string)
    requires '\n' !in a
    ensures Explode(a + "\n" + b) == [a] + Explode(b)
  {
    if a == [] {
      assert a + "\n" + b == ['\n'] + b;
      assert (['\n'] + b)[1..] == b;
    } else {
      assert (a + "\n" + b)[1..] == a[1..] + "\n" + b;
      ExplodeLine(a[1..], b);
      assert [a[0]] + a[1..] == a;
    }
  }

  /** An entry without LF is one piece. */
  lemma {:induction false} ExplodeSingle(a: string)
    requires '\n' !in a
    ensures Explode(a) == [a]
  {
    if a != [] {
      ExplodeSingle(a[1..]);
      assert [a[0]] + a[1..] == a;
    }
  }

  /** Splitting a join of LF-free entries gives back the entries. */
  lemma {:induction false} ExplodeImplode(entries: seq<string>)
    requires |entries| >= 1
    requires forall i :: 0 <= i < |entries| ==> '\n' !in entries[i]
    ensures Explode(Implode(entries)) == entries
  {
    if |entries| == 1 {
      ExplodeSingle(entries[0]);
    } else {
      ExplodeImplode(entries[1..]);
      ExplodeLine(entries[0], Implode(entries[1..]));
      assert [entries[0]] + entries[1..] == entries;
    }
  }

  /** The submitted domains text, cleaned and split as `submitForm` stores it. */
  function CleanDomains(text: string): (r: seq<string>)
    ensures |r| >= 1
    ensures forall i :: 0 <= i < |r| ==> '\n' !in r[i]
    ensures |r| == Count('\n', ReplaceCrlf(Trim(text))) + 1
    ensures Implode(r) == ReplaceCrlf(Trim(text))
  {
    var normalised := ReplaceCrlf(Trim(text));
    ImplodeExplode(normalised);
    Explode(normalised)
  }

  /** Trimming removes a run of leading blanks up to a non-blank character. */
  lemma {:induction false} TrimLeftBlanks(pre: string, rest: string)
    requires forall i :: 0 <= i < |pre| ==> Blank(pre[i])
    requires rest != [] ==> !Blank(rest[0])
    ensures TrimLeft(pre + rest) == rest
  {
    if pre != [] {
      assert (pre + rest)[1..] == pre[1..] + rest;
      TrimLeftBlanks(pre[1..], rest);
    } else {
      assert pre + rest == rest;
    }
  }

  /** Trimming removes a run of trailing blanks back to a non-blank character. */
  lemma {:induction false} TrimRightBlanks(rest: string, post: string)
    requires forall i :: 0 <= i < |post| ==> Blank(post[i])
    requires rest != [] ==> !Blank(rest[|rest| - 1])
    ensures TrimRight(rest + post) == rest
  {
    if post != [] {
      var shorter := post[..|post| - 1];
      assert (rest + post)[..|rest + post| - 1] == rest + shorter;
      TrimRightBlanks(rest, shorter);
    } else {
      assert rest + post == rest;
    }
  }

  /** An empty or all-blank textarea is stored as one empty entry, not as an empty list. */
  lemma {:induction false} BlankTextareaGivesOneEmptyEntry(text: string)
    requires forall i :: 0 <= i < |text| ==> Blank(text[i])
    ensures CleanDomains(text) == [""]
  {
  }

  /**
   * Blanks around the whole textarea are dropped, while the lines inside it,
   * blank ones included, are kept as entries.
   */
  lemma {:induction false} OuterBlanksDroppedInnerLinesKept(pre: string, entries: seq<string>, post: string)
    requires Displayable(entries)
    requires forall i :: 0 <= i < |pre| ==> Blank(pre[i])
    requires forall i :: 0 <= i < |post| ==> Blank(post[i])
    ensures CleanDomains(pre + Implode(entries) + post) == entries
  {
    var shown := Implode(entries);
    ShownEnds(entries);
    if shown == [] {
      var all := pre + shown + post;
      assert forall i :: 0 <= i < |all| ==> Blank(all[i]) by {
        assert all == pre + post;
      }
      BlankTextareaGivesOneEmptyEntry(all);
      assert entries == [""] by {
        if |entries| > 1 {
          ImplodeFirst(entries);
        }
      }
    } else {
      assert pre + shown + post == pre + (shown + post);
      TrimLeftBlanks(pre, shown + post);
      TrimRightBlanks(shown, post);
      ImplodeNoCr(entries);
      ExplodeImplode(entries);
    }
  }

  /**
   * A stored list the form can show and save back unchanged: at least one
   * entry, no CR or LF inside an entry, and no blank at the two ends of the
   * joined text.
   */
  predicate Displayable(entries: seq<string>) {
    && |entries| >= 1
    && (forall i :: 0 <= i < |entries| ==> '\n' !in entries[i] && '\r' !in entries[i])
    && (|entries| > 1 ==> entries[0] != [] && entries[|entries| - 1] != [])
    && (entries[0] != [] ==> !Blank(entries[0][0]))
    && (entries[|entries| - 1] != [] ==> !Blank(entries[|entries| - 1][|entries[|entries| - 1]| - 1]))
  }

  lemma ImplodeFirst(entries: seq<string>)
    requires |entries| >= 1 && entries[0] != []
    ensures Implode(entries) != [] && Implode(entries)[0] == entries[0][0]
  {
  }

  lemma {:induction false} ImplodeLast(entries: seq<string>)
    requires |entries| >= 1 && entries[|entries| - 1] != []
    ensures Implode(entries) != []
    ensures Implode(entries)[|Implode(entries)| - 1] == entries[|entries| - 1][|entries[|entries| - 1]| - 1]
  {
    if |entries| > 1 {
      ImplodeLast(entries[1..]);
    }
  }

  /** The joined text of a displayable list has no blank at either end. */
  lemma ShownEnds(entries: seq<string>)
    requires Displayable(entries)
    ensures var shown := Implode(entries);
            shown != [] ==> !Blank(shown[0]) && !Blank(shown[|shown| - 1])
  {
    if |entries| > 1 || entries[0] != [] {
      ImplodeFirst(entries);
      ImplodeLast(entries);
    }
  }

  lemma {:induction false} ImplodeNoCr(entries: seq<string>)
    requires forall i :: 0 <= i < |entries| ==> '\r' !in entries[i]
    ensures '\r' !in Implode(entries)
  {
    if |entries| > 1 {
      ImplodeNoCr(entries[1..]);
    }
  }

  lemma ImplodeCrlfFirst(entries: seq<string>)
    requires |entries| >= 1 && entries[0] != []
    ensures ImplodeCrlf(entries) != [] && ImplodeCrlf(entries)[0] == entries[0][0]
  {
  }

  lemma {:induction false} ImplodeCrlfLast(entries: seq<string>)
    requires |entries| >= 1 && entries[|entries| - 1] != []
    ensures ImplodeCrlf(entries) != []
    ensures ImplodeCrlf(entries)[|ImplodeCrlf(entries)| - 1] == entries[|entries| - 1][|entries[|entries| - 1]| - 1]
  {
    if |entries| > 1 {
      ImplodeCrlfLast(entries[1..]);
    }
  }

  /**
   * A displayable list, shown and sent back by a browser with CRLF line
   * breaks, is stored unchanged.
   */
  lemma {:induction false} BrowserRoundTrip(entries: seq<string>)
    requires Displayable(entries)
    ensures CleanDomains(ImplodeCrlf(entries)) == entries
  {
    var sent := ImplodeCrlf(entries);
    if |entries| > 1 || entries[0] != [] {
      ImplodeCrlfFirst(entries);
      ImplodeCrlfLast(entries);
    }
    TrimKeepsTrimmed(sent);
    CrlfJoinBecomesLfJoin(entries);
    ExplodeImplode(entries);
  }

  /** Showing a displayable list and saving the form again stores the same list. */
  lemma {:induction false} DisplayThenSave(entries: seq<string>)
    requires Displayable(entries)
    ensures CleanDomains(Implode(entries)) == entries
  {
    OuterBlanksDroppedInnerLinesKept("", entries, "");
    assert "" + Implode(entries) + "" == Implode(entries);
  }

  /** A value of the submitted form or of the stored configuration. */
  datatype FormValue = Text(text: string) | Checkbox(checked: bool) | Lines(lines: seq<string>) | Group

  /** The domains text of a submission; a missing or non-text value reads as "". */
  function DomainsText(values: map<string, FormValue>): string {
    if "domains" in values && values["domains"].Text? then values["domains"].text else ""
  }

  /** The configuration `submitForm` saves: the values without `actions`, with the domains cleaned. */
  function SubmittedSettings(values: map<string, FormValue>): (r: map<string, FormValue>)
    ensures "actions" !in r
    ensures "domains" in r && r["domains"] == Lines(CleanDomains(DomainsText(values)))
    ensures forall k :: k in r <==> k == "domains" || (k in values && k != "actions")
    ensures forall k :: k in values && k != "actions" && k != "domains" ==> k in r && r[k] == values[k]
  {
    assert "actions" != "domains" by {
      assert "actions"[0] != "domains"[0];
    }
    (values - {"actions"})["domains" := Lines(CleanDomains(DomainsText(values)))]
  }

  /** The default value `buildForm` gives the domains textarea; None where PHP's implode() fails. */
  function DomainsDefault(stored: map<string, FormValue>): (r: Option<string>)
    ensures r.Some? <==> "domains" in stored && stored["domains"].Lines?
  {
    if "domains" in stored && stored["domains"].Lines? then Some(Implode(stored["domains"].lines)) else None
  }

  /** After a save the textarea shows the trimmed text with CRLF turned into LF. */
  lemma SaveThenDisplay(values: map<string, FormValue>)
    ensures DomainsDefault(SubmittedSettings(values)) == Some(ReplaceCrlf(Trim(DomainsText(values))))
  {
  }

  /** The configuration storage holding multi_domain_login.settings. */
  class ConfigStore {
    var configs: map<string, map<string, FormValue>>

    constructor (configs: map<string, map<string, FormValue>>)
      ensures this.configs == configs
    {
      this.configs := configs;
    }

    /** `submitForm`: save the cleaned values as multi_domain_login.settings. */
    method SubmitForm(values: map<string, FormValue>)
      modifies this
      ensures configs == old(configs)[SettingsName := SubmittedSettings(values)]
    {
      var cleaned := values - {"actions"};
      var domains := ReplaceCrlf(Trim(DomainsText(values)));
      cleaned := cleaned["domains" := Lines(Explode(domains))];
      configs := configs[SettingsName := cleaned];
    }
  }
}
