/** The first pass of `parse_itp_file`: every line is stripped, blank lines
    and `;` comments are skipped, a `[ name ]` header switches the current
    section, and every other line is appended to the current section's list.

    `Sections` states the outcome as a filter over the file (the lines of
    section `name` are the content lines whose most recent header is `name`);
    `ParseSections` is the loop that builds it line by line. */
module Classifier {
  import opened Text

  /** A stripped line that is neither blank nor a `;` comment. */
  predicate IsContent(line: string) {
    line != [] && line[0] != ';'
  }

  /** `re.match(r'\[(.+)\]', line)` succeeds: the line opens with `[` and
      has a `]` at index 2 or later (the group needs one character). */
  predicate IsHeader(line: string) {
    line != [] && line[0] == '[' && exists j :: 2 <= j < |line| && line[j] == ']'
  }

  /** The last `]` at or below index k; the greedy `.+` stretches to it. */
  function LastClose(line: string, k: nat): (j: nat)
    requires k < |line|
    requires exists j :: 2 <= j <= k && line[j] == ']'
    ensures 2 <= j <= k && line[j] == ']'
    ensures forall i :: j < i <= k ==> line[i] != ']'
    decreases k
  {
    if line[k] == ']' then k
    else
      var w :| 2 <= w <= k && line[w] == ']';
      assert w < k;
      LastClose(line, k - 1)
  }

  /** `section_match.group(1).strip()`: the text between the opening `[`
      and the last `]`, stripped. */
  function HeaderName(line: string): string
    requires IsHeader(line)
  {
    Strip(line[1..LastClose(line, |line| - 1)])
  }

  /** A raw line that the classifier treats as a header. */
  predicate IsHeaderLine(raw: string) {
    var line := Strip(raw);
    IsContent(line) && IsHeader(line)
  }

  /** A raw line that the classifier stores in the current section, if any. */
  predicate IsDataLine(raw: string) {
    var line := Strip(raw);
    IsContent(line) && !IsHeader(line)
  }

  /** The section in force after `lines` when `start` was in force before
      them: the name of their last header, or `start` if they have none.
      The empty name stands for "no section" (Python's `None` and `''` are
      both false at the `if current_section` test). */
  function CurrentAfter(start: string, lines: seq<string>): string {
    if lines == [] then start
    else
      var raw := lines[|lines| - 1];
      if IsHeaderLine(raw) then HeaderName(Strip(raw))
      else CurrentAfter(start, lines[..|lines| - 1])
  }

  /** The stripped data lines of section `name`, in file order, when `start`
      is in force before `lines`. */
  function BucketFrom(start: string, lines: seq<string>, name: string): seq<string> {
    if lines == [] then []
    else
      var prior := lines[..|lines| - 1];
      var raw := lines[|lines| - 1];
      BucketFrom(start, prior, name) +
        (if IsDataLine(raw) && name != "" && CurrentAfter(start, prior) == name
         then [Strip(raw)] else [])
  }

  /** The names of all headers in `lines`. */
  function HeaderNames(lines: seq<string>): set<string> {
    set i | 0 <= i < |lines| && IsHeaderLine(lines[i]) :: HeaderName(Strip(lines[i]))
  }

  /** The `sections` dictionary after reading the whole file: one entry per
      section that received at least one line. */
  function Sections(lines: seq<string>): map<string, seq<string>> {
    map name | name in HeaderNames(lines) && BucketFrom("", lines, name) != [] ::
      BucketFrom("", lines, name)
  }

  /** The loop of `parse_itp_file` over the file's lines. */
  method ParseSections(lines: seq<string>) returns (sections: map<string, seq<string>>)
    ensures sections == Sections(lines)
  {
    sections := map[];
    var current := "";
    for i := 0 to |lines|
      invariant current == CurrentAfter("", lines[..i])
      invariant forall name :: name in sections <==> BucketFrom("", lines[..i], name) != []
      invariant forall name :: name in sections ==> sections[name] == BucketFrom("", lines[..i], name)
    {
      var line := Strip(lines[i]);
      if line == [] || line[0] == ';' {
      } else if IsHeader(line) {
        current := HeaderName(line);
      } else if current != "" {
        var prior := if current in sections then sections[current] else [];
        sections := sections[current := prior + [line]];
      }
      forall name
        ensures name in sections <==> BucketFrom("", lines[..i + 1], name) != []
        ensures name in sections ==> sections[name] == BucketFrom("", lines[..i + 1], name)
      {
        ClassifyStep(lines, i, name);
      }
      ClassifyStep(lines, i, "");
    }
    assert lines[..|lines|] == lines;
    SectionsEqual(lines, sections);
  }

  /** A dictionary holding each section's lines is `Sections`. */
  lemma SectionsEqual(lines: seq<string>, sections: map<string, seq<string>>)
    requires forall name :: name in sections <==> BucketFrom("", lines, name) != []
    requires forall name :: name in sections ==> sections[name] == BucketFrom("", lines, name)
    ensures sections == Sections(lines)
  {
    var s := Sections(lines);
    SectionsSameKeys(lines, sections);
    forall name | name in s ensures sections[name] == s[name] {
      SectionsAt(lines, name);
    }
  }

  lemma SectionsSameKeys(lines: seq<string>, sections: map<string, seq<string>>)
    requires forall name :: name in sections <==> BucketFrom("", lines, name) != []
    ensures sections.Keys == Sections(lines).Keys
  {
    forall name ensures name in sections <==> name in Sections(lines) {
      SectionsAt(lines, name);
    }
  }

  /** Reading one more line. */
  lemma ClassifyStep(lines: seq<string>, i: nat, name: string)
    requires i < |lines|
    ensures CurrentAfter("", lines[..i + 1]) ==
      if IsHeaderLine(lines[i]) then HeaderName(Strip(lines[i])) else CurrentAfter("", lines[..i])
    ensures BucketFrom("", lines[..i + 1], name) == BucketFrom("", lines[..i], name) +
      if IsDataLine(lines[i]) && name != "" && CurrentAfter("", lines[..i]) == name then [Strip(lines[i])] else []
  {
    assert lines[..i + 1][..i] == lines[..i];
  }

  /** Section `name` is in the dictionary exactly when it received a line,
      and then holds exactly those lines. */
  lemma SectionsAt(lines: seq<string>, name: string)
    ensures name in Sections(lines) <==> BucketFrom("", lines, name) != []
    ensures name in Sections(lines) ==> Sections(lines)[name] == BucketFrom("", lines, name)
  {
    if BucketFrom("", lines, name) != [] {
      BucketNamesHeader("", lines, name);
    }
  }

  /** The section in force is either the starting one or a header of the lines. */
  lemma {:induction false} CurrentIsHeaderName(start: string, lines: seq<string>)
    ensures CurrentAfter(start, lines) == start || CurrentAfter(start, lines) in HeaderNames(lines)
  {
    if lines != [] {
      var prior := lines[..|lines| - 1];
      CurrentIsHeaderName(start, prior);
      HeaderNamesGrow(lines);
      if IsHeaderLine(lines[|lines| - 1]) {
        assert HeaderName(Strip(lines[|lines| - 1])) in HeaderNames(lines);
      }
    }
  }

  lemma HeaderNamesGrow(lines: seq<string>)
    requires lines != []
    ensures HeaderNames(lines[..|lines| - 1]) <= HeaderNames(lines)
  {
    var prior := lines[..|lines| - 1];
    forall n | n in HeaderNames(prior) ensures n in HeaderNames(lines) {
      var i :| 0 <= i < |prior| && IsHeaderLine(prior[i]) && HeaderName(Strip(prior[i])) == n;
      assert lines[i] == prior[i];
    }
  }

  /** A section that received lines was named by a header, unless it was in
      force from the start. */
  lemma {:induction false} BucketNamesHeader(start: string, lines: seq<string>, name: string)
    requires BucketFrom(start, lines, name) != []
    ensures name == start || name in HeaderNames(lines)
  {
    var prior := lines[..|lines| - 1];
    HeaderNamesGrow(lines);
    if BucketFrom(start, prior, name) != [] {
      BucketNamesHeader(start, prior, name);
    } else {
      CurrentIsHeaderName(start, prior);
    }
  }

  /** Every stored line is a stripped input line that is non-empty, not a
      `;` comment and not a header. */
  lemma {:induction false} BucketHoldsDataLines(start: string, lines: seq<string>, name: string)
    ensures forall k :: 0 <= k < |BucketFrom(start, lines, name)| ==>
      var line := BucketFrom(start, lines, name)[k];
      line != [] && line[0] != ';' && !IsHeader(line) &&
      exists j :: 0 <= j < |lines| && line == Strip(lines[j])
  {
    if lines != [] {
      var prior := lines[..|lines| - 1];
      BucketHoldsDataLines(start, prior, name);
      var b := BucketFrom(start, lines, name);
      var bp := BucketFrom(start, prior, name);
      forall k | 0 <= k < |b|
        ensures b[k] != [] && b[k][0] != ';' && !IsHeader(b[k])
        ensures exists j :: 0 <= j < |lines| && b[k] == Strip(lines[j])
      {
        if k < |bp| {
          var j :| 0 <= j < |prior| && bp[k] == Strip(prior[j]);
          assert lines[j] == prior[j];
        } else {
          assert b[k] == Strip(lines[|lines| - 1]);
        }
      }
    }
  }

  /** Reading `a` then `b` is reading `a`, then reading `b` from the section
      `a` left in force. */
  lemma {:induction false} CurrentAppend(start: string, a: seq<string>, b: seq<string>)
    ensures CurrentAfter(start, a + b) == CurrentAfter(CurrentAfter(start, a), b)
  {
    if b == [] {
      assert a + b == a;
    } else {
      var b' := b[..|b| - 1];
      assert (a + b)[..|a + b| - 1] == a + b';
      CurrentAppend(start, a, b');
    }
  }

  /** Section lists only ever grow at the end: the lines stored while reading
      `a` come first, in file order, followed by those stored while reading `b`. */
  lemma {:induction false} BucketAppend(start: string, a: seq<string>, b: seq<string>, name: string)
    ensures BucketFrom(start, a + b, name) ==
      BucketFrom(start, a, name) + BucketFrom(CurrentAfter(start, a), b, name)
  {
    if b == [] {
      assert a + b == a;
    } else {
      var b' := b[..|b| - 1];
      assert (a + b)[..|a + b| - 1] == a + b';
      BucketAppend(start, a, b', name);
      CurrentAppend(start, a, b');
    }
  }

  /** Lines read while no section is in force and which hold no header store
      nothing and leave no section in force. */
  lemma {:induction false} NoHeaderNoSection(lines: seq<string>, name: string)
    requires forall i :: 0 <= i < |lines| ==> !IsHeaderLine(lines[i])
    ensures CurrentAfter("", lines) == ""
    ensures BucketFrom("", lines, name) == []
  {
    if lines != [] {
      NoHeaderNoSection(lines[..|lines| - 1], name);
    }
  }

  /** Lines before the first header are dropped: they change no section. */
  lemma LinesBeforeFirstHeaderDropped(pre: seq<string>, post: seq<string>)
    requires forall i :: 0 <= i < |pre| ==> !IsHeaderLine(pre[i])
    ensures Sections(pre + post) == Sections(post)
  {
    forall name
      ensures name in Sections(pre + post) <==> name in Sections(post)
      ensures name in Sections(post) ==> Sections(pre + post)[name] == Sections(post)[name]
    {
      NoHeaderNoSection(pre, name);
      BucketAppend("", pre, post, name);
      SectionsAt(pre + post, name);
      SectionsAt(post, name);
    }
  }

  /** A block that opens with a header stores the same lines whatever
      section was in force before it. */
  lemma {:induction false} HeaderResetsSection(s1: string, s2: string, lines: seq<string>, name: string)
    requires lines != [] && IsHeaderLine(lines[0])
    ensures CurrentAfter(s1, lines) == CurrentAfter(s2, lines)
    ensures BucketFrom(s1, lines, name) == BucketFrom(s2, lines, name)
  {
    if |lines| > 1 {
      var prior := lines[..|lines| - 1];
      assert prior[0] == lines[0];
      HeaderResetsSection(s1, s2, prior, name);
    } else {
      assert lines[..0] == [];
    }
  }
}
