/**
 * What a note card shows: the title or "Untitled", a plain-text preview of
 * the HTML content or "No content", at most three tag buttons with a "+N"
 * overflow badge, and a tooltip holding at most 200 characters of the
 * preview or "Empty note".
 */
module NoteCard {
  import opened Wrappers
  import Ascii
  import Records
  import opened Numbers

  /** No `<` is followed, anywhere later, by a `>`: the text holds no tag. */
  predicate NoTagSpan(s: string) {
    forall i, j :: 0 <= i < j < |s| && s[i] == '<' ==> s[j] != '>'
  }

  /** The position of the first `>` in `s`, which must hold one. */
  function FirstClose(s: string): (k: nat)
    requires '>' in s
    ensures k < |s| && s[k] == '>' && '>' !in s[..k]
  {
    if s[0] == '>' then 0 else FirstClose(s[1..]) + 1
  }

  /**
   * `html.replace(/<[^>]*>/g, "")`: from left to right, every `<` that has a
   * `>` after it is deleted together with everything up to and including the
   * first such `>`; a `<` with no `>` after it stays.
   */
  function RemoveTags(s: string): (r: string)
    ensures |r| <= |s|
    ensures forall c :: c in r ==> c in s
    ensures NoTagSpan(r)
    decreases |s|
  {
    if s == [] then []
    else if s[0] == '<' && '>' in s[1..] then
      var rest := s[FirstClose(s[1..]) + 2..];
      assert forall c :: c in rest ==> c in s;
      RemoveTags(rest)
    else
      var rest := RemoveTags(s[1..]);
      assert forall c :: c in rest ==> c in s[1..];
      [s[0]] + rest
  }

  /** Text without a tag comes back unchanged. */
  lemma {:induction false} RemoveTagsIdentity(s: string)
    requires NoTagSpan(s)
    ensures RemoveTags(s) == s
  {
    if s != [] {
      if s[0] == '<' {
        assert '>' !in s[1..] by {
          forall k | 0 <= k < |s[1..]|
            ensures s[1..][k] != '>'
          {
            assert s[1..][k] == s[k + 1];
          }
        }
      }
      RemoveTagsIdentity(s[1..]);
      assert s == [s[0]] + s[1..];
    }
  }

  /** Text before the first `<` survives unchanged. */
  lemma {:induction false} RemoveTagsKeepsPlainPrefix(p: string, q: string)
    requires '<' !in p
    ensures RemoveTags(p + q) == p + RemoveTags(q)
  {
    if p != [] {
      var s := p + q;
      assert s[0] == p[0] && s[1..] == p[1..] + q;
      RemoveTagsKeepsPlainPrefix(p[1..], q);
      assert p == [p[0]] + p[1..];
    } else {
      assert p + q == q;
    }
  }

  /**
   * A tag `<m>` is removed and the text before it kept: together with
   * `RemoveTagsIdentity` this fixes what `RemoveTags` returns on every input.
   */
  lemma RemoveTagsDropsTag(p: string, m: string, q: string)
    requires '<' !in p && '>' !in m
    ensures RemoveTags(p + "<" + m + ">" + q) == p + RemoveTags(q)
  {
    var t := "<" + m + ">" + q;
    assert t[1..] == m + ">" + q;
    FirstCloseAfter(m, q);
    assert t[|m| + 2..] == q;
    assert p + "<" + m + ">" + q == p + t;
    RemoveTagsKeepsPlainPrefix(p, t);
  }

  /** The first `>` of `m + ">" + q` is the one after `m` when `m` has none. */
  lemma {:induction false} FirstCloseAfter(m: string, q: string)
    requires '>' !in m
    ensures '>' in m + ">" + q && FirstClose(m + ">" + q) == |m|
  {
    var t := m + ">" + q;
    assert t[|m|] == '>';
    if m != [] {
      assert t[1..] == m[1..] + ">" + q;
      FirstCloseAfter(m[1..], q);
    }
  }

  lemma NoTagSpanSlice(s: string, lo: nat, hi: nat)
    requires NoTagSpan(s) && lo <= hi <= |s|
    ensures NoTagSpan(s[lo..hi])
  {
    var t := s[lo..hi];
    forall i, j | 0 <= i < j < |t| && t[i] == '<'
      ensures t[j] != '>'
    {
      assert t[i] == s[lo + i] && t[j] == s[lo + j];
    }
  }

  lemma TrimKeepsNoTagSpan(text: string)
    requires NoTagSpan(text)
    ensures NoTagSpan(Ascii.Trim(text))
  {
    var start := Ascii.LeadingSpaces(text);
    NoTagSpanSlice(text, start, start + |Ascii.Trim(text)|);
  }

  /** `stripHtml`: tags removed, then trimmed. */
  function StripHtml(html: string): (r: string)
    ensures |r| <= |html|
    ensures NoTagSpan(r)
    ensures r == [] || (!Ascii.IsSpace(r[0]) && !Ascii.IsSpace(r[|r| - 1]))
  {
    var text := RemoveTags(html);
    TrimKeepsNoTagSpan(text);
    Ascii.Trim(text)
  }

  /** Stripping a preview again changes nothing. */
  lemma StripHtmlIdempotent(html: string)
    ensures StripHtml(StripHtml(html)) == StripHtml(html)
  {
    var once := StripHtml(html);
    RemoveTagsIdentity(once);
    Ascii.TrimOfTrimmed(once);
  }

  /** At most this many tags are shown as buttons. */
  const SHOWN_TAGS: nat := 3
  /** At most this many characters of the preview go into the tooltip. */
  const TOOLTIP_LENGTH: nat := 200

  /** The texts a card renders. */
  datatype CardView = CardView(
    title: string,
    preview: string,
    shownTags: seq<string>,
    overflow: Option<string>,
    tooltip: string)

  /**
   * `text || fallback` on strings: the empty string is the only falsy one. The
   * card uses it for the title ("Untitled"), the preview ("No content") and
   * the tooltip ("Empty note").
   */
  function OrElse(text: string, fallback: string): (r: string)
    ensures text == "" ==> r == fallback
    ensures text != "" ==> r == text
    ensures r != "" <==> text != "" || fallback != ""
  {
    if text != "" then text else fallback
  }

  /** `tags.slice(0, 3)`: the tags shown as buttons, a prefix of at most three. */
  function ShownTags(tags: seq<string>): (r: seq<string>)
    ensures |r| == Min(|tags|, SHOWN_TAGS) && r == tags[..|r|]
  {
    tags[..Min(|tags|, SHOWN_TAGS)]
  }

  /** The "+N" label, present exactly when some tags are not shown. */
  function Overflow(tags: seq<string>): (r: Option<string>)
    ensures r.Some? <==> |tags| > SHOWN_TAGS
    ensures r.Some? ==> |r.value| >= 2 && r.value[0] == '+'
  {
    if |tags| > SHOWN_TAGS then Some("+" + Ascii.Decimal(|tags| - SHOWN_TAGS)) else None
  }

  /** The tooltip: `preview.slice(0, 200) || "Empty note"`. */
  function Tooltip(preview: string): (r: string)
    ensures preview == "" ==> r == "Empty note"
    ensures preview != "" ==> 0 < |r| <= TOOLTIP_LENGTH && |r| <= |preview| && r == preview[..|r|]
    ensures preview != "" && |preview| <= TOOLTIP_LENGTH ==> r == preview
  {
    OrElse(preview[..Min(|preview|, TOOLTIP_LENGTH)], "Empty note")
  }

  /** The card of `note`. */
  function ViewOf(note: Records.Note): (v: CardView)
    ensures v.title != "" && v.preview != "" && v.tooltip != ""
    ensures |v.shownTags| <= SHOWN_TAGS && |v.tooltip| <= TOOLTIP_LENGTH
    ensures v.overflow.Some? <==> |v.shownTags| < |note.tags|
  {
    var preview := StripHtml(note.content);
    CardView(OrElse(note.title, "Untitled"), OrElse(preview, "No content"), ShownTags(note.tags), Overflow(note.tags), Tooltip(preview))
  }

  /** Every tag is either shown or counted by the overflow label. */
  lemma {:induction false} OverflowCountsHiddenTags(tags: seq<string>)
    ensures Overflow(tags).None? ==> ShownTags(tags) == tags
    ensures Overflow(tags).Some? ==>
      var badge := Overflow(tags).value;
      && (forall i :: 1 <= i < |badge| ==> Ascii.IsDigit(badge[i]))
      && |ShownTags(tags)| + Ascii.DigitsValue(badge[1..]) == |tags|
  {
    if |tags| > SHOWN_TAGS {
      var hidden := |tags| - SHOWN_TAGS;
      var badge := Overflow(tags).value;
      assert badge[1..] == Ascii.Decimal(hidden);
      Ascii.DecimalRoundTrip(hidden);
    }
  }
}
