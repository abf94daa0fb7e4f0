/** Cursor text: the ids a strata response hands out and how they are read back
    (api/strata.py). */
module StrataCursor {
  import opened Seqs
  import opened StrataCatalog

  const OTHER_CREDITS := "c:other"
  const UNDATED := "undated"
  const ALL := "all"

  // ---- Python's str.join and str.split on one separator ----------------------------------

  function Join(parts: seq<string>, sep: char): string {
    if parts == [] then ""
    else if |parts| == 1 then parts[0]
    else parts[0] + [sep] + Join(parts[1..], sep)
  }

  function Split(text: string, sep: char): (parts: seq<string>)
    ensures |parts| >= 1
  {
    if text == "" then [""]
    else
      var rest := Split(text[1..], sep);
      if text[0] == sep then [""] + rest
      else [[text[0]] + rest[0]] + rest[1..]
  }

  lemma {:induction false} SplitPlain(text: string, sep: char)
    requires sep !in text
    ensures Split(text, sep) == [text]
  {
    if text != "" {
      SplitPlain(text[1..], sep);
      assert [text[0]] + text[1..] == text;
    }
  }

  /** A separator cuts: what precedes it, free of separators, is the first part. */
  lemma {:induction false} SplitAt(head: string, tail: string, sep: char)
    requires sep !in head
    ensures Split(head + [sep] + tail, sep) == [head] + Split(tail, sep)
  {
    var text := head + [sep] + tail;
    if head == "" {
      assert text[1..] == tail;
    } else {
      assert text[1..] == head[1..] + [sep] + tail;
      SplitAt(head[1..], tail, sep);
      assert [text[0]] + head[1..] == head;
    }
  }

  lemma {:induction false} SplitJoin(parts: seq<string>, sep: char)
    requires |parts| >= 1 && forall p :: p in parts ==> sep !in p
    ensures Split(Join(parts, sep), sep) == parts
  {
    if |parts| == 1 {
      SplitPlain(parts[0], sep);
      assert [parts[0]] == parts;
    } else {
      SplitJoin(parts[1..], sep);
      SplitAt(parts[0], Join(parts[1..], sep), sep);
      assert [parts[0]] + parts[1..] == parts;
    }
  }

  /** No part of a split holds the separator. */
  lemma {:induction false} SplitFree(text: string, sep: char)
    ensures forall p :: p in Split(text, sep) ==> sep !in p
  {
    if text != "" {
      SplitFree(text[1..], sep);
      var rest := Split(text[1..], sep);
      assert rest[0] in rest;
      assert forall p :: p in rest[1..] ==> p in rest;
    }
  }

  lemma {:induction false} JoinContains(parts: seq<string>, sep: char, c: char)
    requires c != sep
    ensures c in Join(parts, sep) <==> exists p :: p in parts && c in p
  {
    if |parts| > 1 {
      JoinContains(parts[1..], sep, c);
      assert parts == [parts[0]] + parts[1..];
    }
  }

  // ---- Credits ----------------------------------------------------------------------------

  function CreditId(credit: Credit): string {
    "c:" + Join(credit, '+')
  }

  /** `_parse_credit`: `c:<artists>` with an optional decade label. */
  function ParseCredit(text: string): (Option<Credit>, Option<string>) {
    var parts := Split(text, ':');
    if (|parts| != 2 && |parts| != 3) || parts[0] != "c" || parts[1] == "" then (None, None)
    else (Some(Split(parts[1], '+')), if |parts| == 3 then Some(parts[2]) else None)
  }

  /** What a credit's artist ids must be for its id to be readable. */
  predicate Readable(credit: Credit) {
    && credit != [] && credit != [""]
    && forall id :: id in credit ==> ':' !in id && '+' !in id
  }

  function Labelled(credit: Credit, tag: Option<string>): string {
    CreditId(credit) + if tag.Some? then ":" + tag.value else ""
  }

  lemma LabelledParts(credit: Credit, tag: Option<string>)
    ensures Split(Labelled(credit, tag), ':')
            == ["c"] + Split(Join(credit, '+') + (if tag.Some? then ":" + tag.value else ""), ':')
  {
    var tail := Join(credit, '+') + (if tag.Some? then ":" + tag.value else "");
    assert Labelled(credit, tag) == "c" + [':'] + tail;
    SplitAt("c", tail, ':');
  }

  lemma ReadableParses(credit: Credit, tag: Option<string>)
    requires Readable(credit)
    requires tag.Some? ==> ':' !in tag.value
    ensures ParseCredit(Labelled(credit, tag)) == (Some(credit), tag)
  {
    var joined := Join(credit, '+');
    LabelledParts(credit, tag);
    JoinContains(credit, '+', ':');
    SplitJoin(credit, '+');
    assert Split("", '+') == [""];
    if tag.Some? {
      assert joined + (":" + tag.value) == joined + [':'] + tag.value;
      SplitAt(joined, tag.value, ':');
      SplitPlain(tag.value, ':');
    } else {
      assert joined + "" == joined;
      SplitPlain(joined, ':');
    }
  }

  /** Whatever credit a text names is readable: no id of it holds a separator. */
  lemma ParsedIsReadable(text: string)
    ensures ParseCredit(text).0.Some? ==> Readable(ParseCredit(text).0.value)
  {
    if ParseCredit(text).0.Some? {
      var joined := Split(text, ':')[1];
      SplitFree(text, ':');
      assert joined in Split(text, ':');
      SplitFree(joined, '+');
      PartsLackColon(joined, ':');
      if Split(joined, '+') == [""] { SplitEmpty(joined, '+'); }
    }
  }

  /** A credit id reads back as the credit and label it was made from exactly when its
      artist ids are readable. */
  lemma CreditRoundTrip(credit: Credit, tag: Option<string>)
    requires tag.Some? ==> ':' !in tag.value
    ensures ParseCredit(Labelled(credit, tag)) == (Some(credit), tag) <==> Readable(credit)
    ensures !Readable(credit) ==> ParseCredit(Labelled(credit, tag)).0 != Some(credit)
  {
    if Readable(credit) { ReadableParses(credit, tag); }
    ParsedIsReadable(Labelled(credit, tag));
  }

  lemma {:induction false} PartsLackColon(text: string, c: char)
    requires c !in text
    ensures forall p :: p in Split(text, '+') ==> c !in p
  {
    if text != "" {
      PartsLackColon(text[1..], c);
      var rest := Split(text[1..], '+');
      assert rest[0] in rest;
      assert forall p :: p in rest[1..] ==> p in rest;
    }
  }

  lemma SplitEmpty(text: string, sep: char)
    requires Split(text, sep) == [""]
    ensures text == ""
  {
  }

  // ---- Decades ------------------------------------------------------------------------------

  function Digits(n: nat): (text: string)
    ensures text != "" && forall c :: c in text ==> '0' <= c <= '9'
  {
    var last := ['0' + (n % 10) as char];
    if n < 10 then last else Digits(n / 10) + last
  }

  function IntText(n: int): (text: string)
    ensures text != "" && ':' !in text
  {
    if n < 0 then "-" + Digits(-n) else Digits(n)
  }

  /** `decade(year)`: the decade's label, floor division included, or `undated`. */
  function Decade(year: Option<int>): (tag: string)
    ensures ':' !in tag && tag != ALL && tag != ""
  {
    if year.None? then UNDATED
    else
      var text := IntText(year.value / 10 * 10) + "s";
      assert text[|text| - 1] == 's';
      text
  }
}
