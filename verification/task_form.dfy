/** What the two task modals share: the `tags` text field, read with
    `val ? val.split(",").map(tag => tag.trim()) : []` and shown with
    `tags?.join(", ") || ""`, and the conversion of the due-date text on submit. */
module TaskForm {
  import opened Wrappers

  // ---------------------------------------------------------------------------
  // String.prototype.trim

  /** The characters `trim` removes: ECMAScript WhiteSpace (tab, vertical tab, form
      feed, space, no-break space, byte order mark and the Unicode space separators)
      and LineTerminator (line feed, carriage return, line and paragraph separators). */
  predicate IsSpace(c: char) {
    || c in {'\t', '\n', '\U{000B}', '\U{000C}', '\r', ' ', '\U{00A0}', '\U{1680}',
             '\U{2028}', '\U{2029}', '\U{202F}', '\U{205F}', '\U{3000}', '\U{FEFF}'}
    || ('\U{2000}' <= c <= '\U{200A}')
  }

  predicate AllSpace(s: string) {
    forall i :: 0 <= i < |s| ==> IsSpace(s[i])
  }

  /** Neither starts nor ends with white space. */
  predicate IsTrimmed(s: string) {
    s == [] || (!IsSpace(s[0]) && !IsSpace(s[|s| - 1]))
  }

  /** Drops the leading white space: what is left is a suffix starting with a
      non-space, and everything before it is white space. */
  function TrimStart(s: string): (r: string)
    ensures |r| <= |s| && r == s[|s| - |r|..]
    ensures AllSpace(s[..|s| - |r|])
    ensures r != [] ==> !IsSpace(r[0])
  {
    if s != [] && IsSpace(s[0]) then
      var r := TrimStart(s[1..]);
      assert s[|s| - |r|..] == s[1..][|s| - 1 - |r|..];
      assert forall i :: 1 <= i < |s| - |r| ==> s[i] == s[1..][..|s| - 1 - |r|][i - 1];
      r
    else s
  }

  /** Drops the trailing white space: what is left is a prefix ending in a non-space,
      and everything after it is white space. */
  function TrimEnd(s: string): (r: string)
    ensures |r| <= |s| && r == s[..|r|]
    ensures AllSpace(s[|r|..])
    ensures r != [] ==> !IsSpace(r[|r| - 1])
  {
    if s != [] && IsSpace(s[|s| - 1]) then
      var r := TrimEnd(s[..|s| - 1]);
      assert forall i :: |r| <= i < |s| - 1 ==> s[i] == s[..|s| - 1][|r|..][i - |r|];
      r
    else s
  }

  /** `s.trim()` */
  function Trim(s: string): (r: string)
    ensures IsTrimmed(r)
    ensures |r| <= |s|
  {
    TrimStart(TrimEnd(s))
  }

  /** `TrimEnd` stops at the last non-space: it drops exactly trailing white space. */
  lemma {:induction false} TrimEndPadded(u: string, post: string)
    requires AllSpace(post) && (u != [] ==> !IsSpace(u[|u| - 1]))
    ensures TrimEnd(u + post) == u
  {
    var s := u + post;
    if post == [] {
      assert s == u;
    } else {
      var shorter := post[..|post| - 1];
      assert s[..|s| - 1] == u + shorter;
      assert s[|s| - 1] == post[|post| - 1];
      TrimEndPadded(u, shorter);
    }
  }

  /** `TrimStart` stops at the first non-space: it drops exactly leading white space. */
  lemma {:induction false} TrimStartPadded(pre: string, t: string)
    requires AllSpace(pre) && (t != [] ==> !IsSpace(t[0]))
    ensures TrimStart(pre + t) == t
  {
    var s := pre + t;
    if pre == [] {
      assert s == t;
    } else {
      assert s[1..] == pre[1..] + t;
      assert s[0] == pre[0];
      TrimStartPadded(pre[1..], t);
    }
  }

  /** Trimming removes exactly the white space around a trimmed text: `trim` is
      characterised by the decomposition `s == pre + r + post`. */
  lemma TrimPadded(pre: string, t: string, post: string)
    requires AllSpace(pre) && AllSpace(post) && IsTrimmed(t)
    ensures Trim(pre + t + post) == t
  {
    if t == [] {
      assert pre + t + post == [] + (pre + post);
      TrimEndPadded([], pre + post);
    } else {
      assert (pre + t)[|pre + t| - 1] == t[|t| - 1];
      TrimEndPadded(pre + t, post);
      TrimStartPadded(pre, t);
    }
  }

  /** Trimming a trimmed text changes nothing. */
  lemma TrimTrimmed(t: string)
    requires IsTrimmed(t)
    ensures Trim(t) == t
  {
    TrimPadded([], t, []);
    assert [] + t + [] == t;
  }

  // ---------------------------------------------------------------------------
  // String.prototype.split and Array.prototype.join

  function Occurrences(s: string, c: char): nat {
    if s == [] then 0 else (if s[0] == c then 1 else 0) + Occurrences(s[1..], c)
  }

  /** `s.split(sep)` for a one-character separator: one more piece than separators,
      none containing the separator; empty pieces are kept. */
  function Split(s: string, sep: char): (r: seq<string>)
    ensures |r| == Occurrences(s, sep) + 1
    ensures forall p :: p in r ==> sep !in p
  {
    if s == [] then [""]
    else
      var rest := Split(s[1..], sep);
      if s[0] == sep then [""] + rest
      else
        assert rest[0] in rest;
        [[s[0]] + rest[0]] + rest[1..]
  }

  /** `parts.join(sep)` */
  function Join(parts: seq<string>, sep: string): string {
    if parts == [] then ""
    else if |parts| == 1 then parts[0]
    else parts[0] + sep + Join(parts[1..], sep)
  }

  /** Joining the pieces with the separator gives the text back. */
  lemma {:induction false} SplitThenJoin(s: string, sep: char)
    ensures Join(Split(s, sep), [sep]) == s
  {
    if s != [] {
      var rest := Split(s[1..], sep);
      SplitThenJoin(s[1..], sep);
      if s[0] == sep {
        assert s == [sep] + s[1..];
      } else {
        var r := [[s[0]] + rest[0]] + rest[1..];
        assert r[1..] == rest[1..];
        if |rest| == 1 {
          assert s == [s[0]] + s[1..];
        } else {
          assert Join(rest, [sep]) == rest[0] + [sep] + Join(rest[1..], [sep]);
          assert s == [s[0]] + s[1..];
        }
      }
    }
  }

  /** A text without the separator is one piece. */
  lemma {:induction false} SplitNone(a: string, sep: char)
    requires sep !in a
    ensures Split(a, sep) == [a]
  {
    if a != [] {
      SplitNone(a[1..], sep);
      assert a == [a[0]] + a[1..];
    }
  }

  /** Splitting after a separator-free prefix and a separator. */
  lemma {:induction false} SplitAfter(a: string, b: string, sep: char)
    requires sep !in a
    ensures Split(a + [sep] + b, sep) == [a] + Split(b, sep)
  {
    var s := a + [sep] + b;
    if a == [] {
      assert s[1..] == b;
    } else {
      assert s[0] == a[0] && s[1..] == a[1..] + [sep] + b;
      SplitAfter(a[1..], b, sep);
      assert [a[0]] + a[1..] == a;
    }
  }

  /** Splitting what was joined gives the pieces back, when none contains the separator. */
  lemma {:induction false} JoinThenSplit(parts: seq<string>, sep: char)
    requires parts != []
    requires forall p :: p in parts ==> sep !in p
    ensures Split(Join(parts, [sep]), sep) == parts
  {
    if |parts| == 1 {
      SplitNone(parts[0], sep);
    } else {
      JoinThenSplit(parts[1..], sep);
      SplitAfter(parts[0], Join(parts[1..], [sep]), sep);
      assert parts == [parts[0]] + parts[1..];
    }
  }

  // ---------------------------------------------------------------------------
  // The tags field

  /** `parts.map(tag => tag.trim())` */
  function TrimAll(parts: seq<string>): (r: seq<string>)
    ensures |r| == |parts|
    ensures forall i :: 0 <= i < |r| ==> r[i] == Trim(parts[i])
  {
    seq(|parts|, i requires 0 <= i < |parts| => Trim(parts[i]))
  }

  /** The tags text as a list: nothing for an absent or empty text, otherwise one tag
      per comma-separated piece, trimmed; empty pieces stay as `""`. */
  function ParseTags(val: Option<string>): (r: seq<string>)
    ensures val.None? || val.value == "" ==> r == []
    ensures val.Some? && val.value != "" ==> |r| == Occurrences(val.value, ',') + 1
    ensures val.Some? && val.value != "" ==>
      forall i :: 0 <= i < |r| ==> r[i] == Trim(Split(val.value, ',')[i])
    ensures forall t :: t in r ==> IsTrimmed(t)
  {
    if val.None? || val.value == "" then [] else TrimAll(Split(val.value, ','))
  }

  /** The tags list as text: `", "` between tags, `""` for an absent list. */
  function ShowTags(tags: Option<seq<string>>): (r: string)
    ensures tags.None? || tags.value == [] ==> r == ""
    ensures tags.Some? && |tags.value| == 1 ==> r == tags.value[0]
  {
    if tags.None? then "" else Join(tags.value, ", ")
  }

  /** Every tag but the first gets the space that followed its comma. */
  function Spaced(tags: seq<string>): (r: seq<string>)
    ensures |r| == |tags|
    ensures forall i :: 0 <= i < |r| ==> r[i] == [' '] + tags[i]
  {
    if tags == [] then [] else [[' '] + tags[0]] + Spaced(tags[1..])
  }

  lemma {:induction false} JoinCommaSpace(tags: seq<string>)
    requires tags != []
    ensures Join(tags, ", ") == Join([tags[0]] + Spaced(tags[1..]), ",")
    ensures [' '] + Join(tags, ", ") == Join(Spaced(tags), ",")
  {
    if |tags| > 1 {
      var rest := tags[1..];
      JoinCommaSpace(rest);
      var sp := Spaced(tags);
      assert sp[1..] == Spaced(rest);
      assert ([tags[0]] + Spaced(rest))[1..] == Spaced(rest);
    }
  }

  /** The pieces the shown text splits into: the first tag, then each later tag after
      the space that followed its comma. */
  function Pieces(tags: seq<string>): seq<string>
    requires tags != []
  {
    [tags[0]] + Spaced(tags[1..])
  }

  lemma PiecesCommaFree(tags: seq<string>)
    requires tags != []
    requires forall t :: t in tags ==> ',' !in t
    ensures forall p :: p in Pieces(tags) ==> ',' !in p
  {
    var ps := Pieces(tags);
    forall p | p in ps ensures ',' !in p {
      var i :| 0 <= i < |ps| && ps[i] == p;
      if i > 0 {
        assert p == [' '] + tags[i];
      }
    }
  }

  /** The space after a comma is trimmed away. */
  lemma TrimSpaced(t: string)
    requires IsTrimmed(t)
    ensures Trim([' '] + t) == t
  {
    TrimPadded([' '], t, []);
    assert [' '] + t + [] == [' '] + t;
  }

  lemma SpacedTrimmed(tags: seq<string>)
    requires forall t :: t in tags ==> IsTrimmed(t)
    ensures TrimAll(Spaced(tags)) == tags
  {
    var r := TrimAll(Spaced(tags));
    forall i | 0 <= i < |tags| ensures r[i] == tags[i] {
      TrimSpaced(tags[i]);
    }
  }

  lemma PiecesTrimmed(tags: seq<string>)
    requires tags != []
    requires forall t :: t in tags ==> IsTrimmed(t)
    ensures TrimAll(Pieces(tags)) == tags
  {
    var ps := Pieces(tags);
    var r := TrimAll(ps);
    forall i | 0 <= i < |tags| ensures r[i] == tags[i] {
      if i == 0 {
        assert ps[0] == tags[0];
        TrimTrimmed(tags[0]);
      } else {
        assert ps[i] == Spaced(tags[1..])[i - 1] == [' '] + tags[i];
        TrimSpaced(tags[i]);
      }
    }
  }

  /** Showing trimmed, comma-free tags and reading them back gives the same list; the one
      exception is the list holding only `""`, handled by `SingleEmptyTagLost`. */
  lemma TagsRoundTrip(tags: seq<string>)
    requires forall t :: t in tags ==> IsTrimmed(t) && ',' !in t
    requires tags != [""]
    ensures ParseTags(Some(ShowTags(Some(tags)))) == tags
  {
    if tags != [] {
      var text := Join(tags, ", ");
      JoinCommaSpace(tags);
      assert text != "" by {
        if |tags| == 1 {
          assert tags[0] != "";
        } else {
          assert text == tags[0] + ", " + Join(tags[1..], ", ");
        }
      }
      PiecesCommaFree(tags);
      JoinThenSplit(Pieces(tags), ',');
      assert Split(text, ',') == Pieces(tags);
      PiecesTrimmed(tags);
    }
  }

  /** The list `[""]` is shown as `""`, which reads back as no tags at all. */
  lemma SingleEmptyTagLost()
    ensures ShowTags(Some([""])) == ""
    ensures ParseTags(Some(ShowTags(Some([""])))) == []
  {
  }

  // ---------------------------------------------------------------------------
  // Due date

  /** `data.dueDate ? new Date(data.dueDate) : undefined`; reading a date from its text
      is a parameter. */
  function SubmitDueDate(dueDate: Option<string>, parseDate: string -> int): (r: Option<int>)
    ensures r.None? <==> dueDate.None? || dueDate.value == ""
    ensures r.Some? ==> r.value == parseDate(dueDate.value)
  {
    if dueDate.None? || dueDate.value == "" then None else Some(parseDate(dueDate.value))
  }

  /** The resolver's check of the due-date input. The nullable `timestamp` column makes
      the field `z.date().nullable().optional()`, while an `<input type="date">` holds
      text: only a field that was never set (`undefined`) passes, and any text, `""`
      included, is refused before `onSubmit` runs. */
  predicate DueDateResolves(dueDate: Option<string>) {
    dueDate.None?
  }
}
