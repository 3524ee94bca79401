/**
 * The admin dashboard's form schemas: the book, event and project forms
 * take their tags as one comma-separated text field, `tagsInput`, and
 * turn it into the `tags` array of the insert shape; the blog form has no
 * such transform.
 */
module AdminForms {
  import opened Wrappers
  import opened Schema
  import JsBuiltins

  /**
   * `tagsInput ? tagsInput.split(",").map(tag => tag.trim()) : []`: an
   * absent or empty input gives no tags; otherwise one tag per
   * comma-separated piece, in input order, each trimmed, empty pieces kept.
   */
  function TagsFromInput(input: Option<string>): (tags: seq<string>)
    ensures input.None? || input == Some("") ==> tags == []
    ensures input.Some? && input.value != "" ==>
      && |tags| == JsBuiltins.Count(input.value, ',') + 1
      && forall i :: 0 <= i < |tags| ==> tags[i] == JsBuiltins.Trim(JsBuiltins.Split(input.value, ',')[i])
  {
    match input
    case None => []
    case Some(s) =>
      if s == "" then []
      else
        var pieces := JsBuiltins.Split(s, ',');
        seq(|pieces|, i requires 0 <= i < |pieces| => JsBuiltins.Trim(pieces[i]))
  }

  /** A trimmed piece of a comma-free piece is comma-free. */
  lemma TrimKeepsOut(s: string, c: char)
    requires c !in s
    ensures c !in JsBuiltins.Trim(s)
  {
    var i := JsBuiltins.TrimInfix(s);
    var r := JsBuiltins.Trim(s);
    forall k | 0 <= k < |r| ensures r[k] != c {
      assert r[k] == s[i + k];
    }
  }

  /** No tag holds a comma, and none starts or ends with white space. */
  lemma TagsClean(input: Option<string>)
    ensures forall i :: 0 <= i < |TagsFromInput(input)| ==>
      var t := TagsFromInput(input)[i];
      && ',' !in t
      && (t == [] || (!JsBuiltins.IsJsWhitespace(t[0]) && !JsBuiltins.IsJsWhitespace(t[|t| - 1])))
  {
    var tags := TagsFromInput(input);
    if input.Some? && input.value != "" {
      var pieces := JsBuiltins.Split(input.value, ',');
      forall i | 0 <= i < |tags| ensures ',' !in tags[i] {
        TrimKeepsOut(pieces[i], ',');
      }
    }
  }

  /** Trimming text that neither starts nor ends with white space leaves it as it is. */
  lemma TrimTrimmed(s: string)
    requires s == [] || (!JsBuiltins.IsJsWhitespace(s[0]) && !JsBuiltins.IsJsWhitespace(s[|s| - 1]))
    ensures JsBuiltins.Trim(s) == s
  {
    assert JsBuiltins.TrimStart(s) == s;
  }

  /**
   * Writing clean tags back as comma-separated text and reading it again
   * gives the same tags, unless the text is empty, which reads as no tags.
   */
  lemma TagsRoundTrip(tags: seq<string>)
    requires |tags| >= 1
    requires forall i :: 0 <= i < |tags| ==> ',' !in tags[i]
    requires forall i :: 0 <= i < |tags| ==>
      tags[i] == [] || (!JsBuiltins.IsJsWhitespace(tags[i][0]) && !JsBuiltins.IsJsWhitespace(tags[i][|tags[i]| - 1]))
    requires JsBuiltins.Join(tags, ',') != ""
    ensures TagsFromInput(Some(JsBuiltins.Join(tags, ','))) == tags
  {
    var s := JsBuiltins.Join(tags, ',');
    JsBuiltins.SplitJoin(tags, ',');
    var r := TagsFromInput(Some(s));
    assert |r| == |tags|;
    forall i | 0 <= i < |tags| ensures r[i] == tags[i] {
      assert r[i] == JsBuiltins.Trim(tags[i]);
      TrimTrimmed(tags[i]);
    }
  }

  /** The tags the form produces are read back unchanged when they are edited again. */
  lemma TagsStable(input: Option<string>)
    requires TagsFromInput(input) != [] && JsBuiltins.Join(TagsFromInput(input), ',') != ""
    ensures TagsFromInput(Some(JsBuiltins.Join(TagsFromInput(input), ','))) == TagsFromInput(input)
  {
    TagsClean(input);
    TagsRoundTrip(TagsFromInput(input));
  }

  /** Text written as comma-joined pieces reads as those pieces, trimmed. */
  lemma TagsOfPieces(pieces: seq<string>)
    requires |pieces| >= 1 && forall i :: 0 <= i < |pieces| ==> ',' !in pieces[i]
    requires JsBuiltins.Join(pieces, ',') != ""
    ensures |TagsFromInput(Some(JsBuiltins.Join(pieces, ',')))| == |pieces|
    ensures forall i :: 0 <= i < |pieces| ==>
      TagsFromInput(Some(JsBuiltins.Join(pieces, ',')))[i] == JsBuiltins.Trim(pieces[i])
  {
    JsBuiltins.SplitJoin(pieces, ',');
  }

  /** White space around a tag is dropped: a piece typed with blanks on either side gives the bare tag. */
  lemma TrimAround(w1: string, t: string, w2: string)
    requires forall i :: 0 <= i < |w1| ==> JsBuiltins.IsJsWhitespace(w1[i])
    requires forall i :: 0 <= i < |w2| ==> JsBuiltins.IsJsWhitespace(w2[i])
    requires t == [] || (!JsBuiltins.IsJsWhitespace(t[0]) && !JsBuiltins.IsJsWhitespace(t[|t| - 1]))
    ensures JsBuiltins.Trim(w1 + t + w2) == t
  {
    assert w1 + t + w2 == w1 + (t + w2);
    JsBuiltins.TrimStartSkips(w1, t + w2);
    if t == [] {
      assert t + w2 == [] + w2 == w2;
      assert JsBuiltins.TrimStart(w2) == [] by {
        assert w2 + [] == w2;
        JsBuiltins.TrimStartSkips(w2, []);
      }
    } else {
      assert (t + w2)[0] == t[0];
      assert JsBuiltins.TrimStart(t + w2) == t + w2;
      JsBuiltins.TrimEndSkips(t, w2);
      assert JsBuiltins.TrimEnd(t) == t;
    }
  }

  /** Blank-only text holds no comma. */
  lemma BlanksNoComma(w: string)
    requires forall k :: 0 <= k < |w| ==> JsBuiltins.IsJsWhitespace(w[k])
    ensures ',' !in w
  {
    assert !JsBuiltins.IsJsWhitespace(',');
  }

  /**
   * Blanks typed around the commas are dropped: clean tags written with
   * any white space before and after each of them read back as the tags.
   */
  lemma TagsIgnoreBlanks(tags: seq<string>, before: seq<string>, after: seq<string>)
    requires |tags| >= 1 && |before| == |tags| && |after| == |tags|
    requires forall i :: 0 <= i < |tags| ==> ',' !in tags[i]
    requires forall i :: 0 <= i < |tags| ==>
      tags[i] == [] || (!JsBuiltins.IsJsWhitespace(tags[i][0]) && !JsBuiltins.IsJsWhitespace(tags[i][|tags[i]| - 1]))
    requires forall i, k :: 0 <= i < |before| && 0 <= k < |before[i]| ==> JsBuiltins.IsJsWhitespace(before[i][k])
    requires forall i, k :: 0 <= i < |after| && 0 <= k < |after[i]| ==> JsBuiltins.IsJsWhitespace(after[i][k])
    requires JsBuiltins.Join(Padded(tags, before, after), ',') != ""
    ensures TagsFromInput(Some(JsBuiltins.Join(Padded(tags, before, after), ','))) == tags
  {
    var padded := Padded(tags, before, after);
    forall i | 0 <= i < |padded| ensures ',' !in padded[i] {
      BlanksNoComma(before[i]);
      BlanksNoComma(after[i]);
      assert padded[i] == before[i] + tags[i] + after[i];
    }
    TagsOfPieces(padded);
    var r := TagsFromInput(Some(JsBuiltins.Join(padded, ',')));
    forall i | 0 <= i < |tags| ensures r[i] == tags[i] {
      TrimAround(before[i], tags[i], after[i]);
    }
  }

  /** Each tag with its blanks before and after it. */
  function Padded(tags: seq<string>, before: seq<string>, after: seq<string>): (r: seq<string>)
    requires |before| == |tags| && |after| == |tags|
    ensures |r| == |tags| && forall i :: 0 <= i < |tags| ==> r[i] == before[i] + tags[i] + after[i]
  {
    seq(|tags|, i requires 0 <= i < |tags| => before[i] + tags[i] + after[i])
  }

  /** Worked example: "a, b ,c" gives a, b and c. */
  lemma TagsSpaced()
    ensures TagsFromInput(Some("a, b ,c")) == ["a", "b", "c"]
  {
    var tags, before, after := ["a", "b", "c"], ["", " ", ""], ["", " ", ""];
    assert Padded(tags, before, after) == ["a", " b ", "c"] by {
      var p := Padded(tags, before, after);
      assert p[0] == "" + "a" + "" == "a";
      assert p[1] == " " + "b" + " " == " b ";
      assert p[2] == "" + "c" + "" == "c";
    }
    assert JsBuiltins.Join(["a", " b ", "c"], ',') == "a, b ,c" by {
      assert ["a", " b ", "c"][1..] == [" b ", "c"] && [" b ", "c"][1..] == ["c"];
    }
    TagsIgnoreBlanks(tags, before, after);
  }

  /** Worked example: trimming drops the blanks on both sides, " b " gives "b". */
  lemma TrimSpaced()
    ensures JsBuiltins.Trim(" b ") == "b"
  {
    assert JsBuiltins.TrimStart(" b ") == "b " by { assert " b "[1..] == "b "; }
    assert JsBuiltins.TrimEnd("b ") == "b" by { assert "b "[..1] == "b"; }
  }

  /** Worked example: empty pieces are kept, "a,,b" gives a, the empty tag and b. */
  lemma TagsEmptyPiece()
    ensures TagsFromInput(Some("a,,b")) == ["a", "", "b"]
  {
    var tags := ["a", "", "b"];
    assert JsBuiltins.Join(tags, ',') == "a,,b" by {
      assert tags[1..] == ["", "b"] && tags[1..][1..] == ["b"];
    }
    TagsRoundTrip(tags);
  }

  /** Worked example: blanks only give one empty tag, not none. */
  lemma TagsBlank()
    ensures TagsFromInput(Some("  ")) == [""]
  {
    assert JsBuiltins.Split("  ", ',') == ["  "] by {
      JsBuiltins.SplitJoin(["  "], ',');
    }
    assert JsBuiltins.Trim("  ") == "" by {
      assert JsBuiltins.TrimStart("  ") == "" by {
        assert "  "[1..] == " ";
        assert " "[1..] == "";
      }
    }
  }

  /** The book form: the insert fields plus the tag text. */
  datatype BookForm = BookForm(book: InsertBook, tagsInput: Option<string>)

  /** The event form. */
  datatype EventForm = EventForm(event: InsertEvent, tagsInput: Option<string>)

  /** The project form. */
  datatype ProjectForm = ProjectForm(project: InsertProject, tagsInput: Option<string>)

  /**
   * The blog form: the insert fields plus a `tagsInput` that no transform
   * reads, so the submitted blog carries the text as it was typed and no
   * tags (blogs have no tags column).
   */
  datatype BlogForm = BlogForm(blog: InsertBlog, tagsInput: Option<string>)

  /**
   * `bookFormSchema`'s transform: `tagsInput` is dropped and `tags` is
   * computed from it, replacing any `tags` value; every other field passes
   * through.
   */
  function BookFormValues(form: BookForm): (r: InsertBook)
    ensures r.tags == Some(TagsFromInput(form.tagsInput))
    ensures r.(tags := form.book.tags) == form.book
  {
    form.book.(tags := Some(TagsFromInput(form.tagsInput)))
  }

  /** `eventFormSchema`'s transform. */
  function EventFormValues(form: EventForm): (r: InsertEvent)
    ensures r.tags == Some(TagsFromInput(form.tagsInput))
    ensures r.(tags := form.event.tags) == form.event
  {
    form.event.(tags := Some(TagsFromInput(form.tagsInput)))
  }

  /** `projectFormSchema`'s transform. */
  function ProjectFormValues(form: ProjectForm): (r: InsertProject)
    ensures r.tags == Some(TagsFromInput(form.tagsInput))
    ensures r.(tags := form.project.tags) == form.project
  {
    form.project.(tags := Some(TagsFromInput(form.tagsInput)))
  }
}
