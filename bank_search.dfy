/**
 * The bank search box of app.js: the keyword is the trimmed, lower-cased input; the
 * list shows the first 50 banks, in the order the banks API returned them, whose
 * short name, name or BIN contains the keyword, ignoring case.
 */
module BankSearch {
  import opened GoText
  import opened JsText

  /** A property of a bank record as the banks API returns it: absent, null, or a string. */
  datatype Field = Missing | Null | Text(s: string)

  /** `(f || "")`: absent, null and the empty string all become "". */
  function OrEmpty(f: Field): string {
    if f.Text? then f.s else ""
  }

  /** A field inside a template literal: absent prints as "undefined", null as "null". */
  function Display(f: Field): string {
    match f
    case Missing => "undefined"
    case Null => "null"
    case Text(s) => s
  }

  datatype Bank = Bank(shortName: Field, name: Field, bin: Field)

  const MaxListed: nat := 50

  /** The search keyword: `searchInput.value.trim().toLowerCase()`. */
  function Keyword(input: string): string {
    ToLower(Trim(input))
  }

  /** The filter's test: the keyword occurs in the lower-cased short name, name or BIN. */
  predicate Matches(b: Bank, kw: string) {
    || Includes(ToLower(OrEmpty(b.shortName)), kw)
    || Includes(ToLower(OrEmpty(b.name)), kw)
    || Includes(ToLower(OrEmpty(b.bin)), kw)
  }

  /** `bankArray.filter(...)`: the matching banks, in their original order. */
  function Filter(banks: seq<Bank>, kw: string): (r: seq<Bank>)
    ensures |r| <= |banks|
    ensures forall i :: 0 <= i < |r| ==> r[i] in banks && Matches(r[i], kw)
    ensures forall b :: b in banks && Matches(b, kw) ==> b in r
  {
    if banks == [] then []
    else
      var rest := Filter(banks[1..], kw);
      assert forall b :: b in banks[1..] ==> b in banks;
      assert forall b :: b in banks ==> b == banks[0] || b in banks[1..];
      if Matches(banks[0], kw) then [banks[0]] + rest else rest
  }

  /** Filtering a concatenation filters each part: the order of the banks is kept. */
  lemma {:induction false} FilterAppend(a: seq<Bank>, b: seq<Bank>, kw: string)
    ensures Filter(a + b, kw) == Filter(a, kw) + Filter(b, kw)
  {
    if a == [] {
      assert a + b == b;
    } else {
      assert (a + b)[0] == a[0];
      assert (a + b)[1..] == a[1..] + b;
      FilterAppend(a[1..], b, kw);
    }
  }

  /** `.slice(0, 50)` of the filtered banks. */
  function Listed(banks: seq<Bank>, kw: string): (r: seq<Bank>)
    ensures |r| == if |Filter(banks, kw)| < MaxListed then |Filter(banks, kw)| else MaxListed
    ensures r <= Filter(banks, kw)
  {
    var f := Filter(banks, kw);
    if |f| <= MaxListed then f else f[..MaxListed]
  }

  /** A matching bank is listed, at its place among the matches, exactly when fewer than
      50 matches come before it; once 50 matches are found nothing later is listed. */
  lemma FirstFiftyMatches(banks: seq<Bank>, kw: string, i: nat)
    requires i < |banks| && Matches(banks[i], kw)
    ensures var before := |Filter(banks[..i], kw)|;
      && (before < MaxListed ==> before < |Listed(banks, kw)| && Listed(banks, kw)[before] == banks[i])
      && (before >= MaxListed ==> Listed(banks, kw) == Listed(banks[..i], kw))
  {
    assert banks == banks[..i] + ([banks[i]] + banks[i + 1..]);
    FilterAppend(banks[..i], [banks[i]] + banks[i + 1..], kw);
    FilterAppend([banks[i]], banks[i + 1..], kw);
    assert Filter([banks[i]], kw) == [banks[i]] by {
      assert [banks[i]][1..] == [];
    }
  }

  /** The text of a list item: `${bank.shortName} - ${bank.name}`. */
  function ItemText(b: Bank): string {
    Display(b.shortName) + " - " + Display(b.name)
  }

  function Render(banks: seq<Bank>): (r: seq<string>)
    ensures |r| == |banks|
    ensures forall j :: 0 <= j < |r| ==> r[j] == ItemText(banks[j])
  {
    seq(|banks|, i requires 0 <= i < |banks| => ItemText(banks[i]))
  }

  lemma RenderStep(banks: seq<Bank>, i: nat)
    requires i < |banks|
    ensures Render(banks[..i + 1]) == Render(banks[..i]) + [ItemText(banks[i])]
  {
    assert banks[..i + 1][..i] == banks[..i];
  }

  /** What the list shows after a search: hidden with no items for an empty keyword or
      when nothing matches, otherwise the rendered listed banks. */
  datatype View = View(hidden: bool, items: seq<string>)

  /** The list after a search: hidden exactly when it is empty, empty for a blank keyword,
      and otherwise the rendered listed banks, at most fifty. */
  function SearchView(banks: seq<Bank>, input: string): (v: View)
    ensures v.hidden <==> v.items == []
    ensures Keyword(input) == "" ==> v.items == []
    ensures Keyword(input) != "" ==> v.items == Render(Listed(banks, Keyword(input)))
    ensures |v.items| <= MaxListed
  {
    var kw := Keyword(input);
    if kw == "" then View(true, [])
    else
      var listed := Listed(banks, kw);
      if listed == [] then View(true, [])
      else View(false, Render(listed))
  }

  /** Every item shown is the text of a bank that matches the keyword. */
  lemma ItemsMatch(banks: seq<Bank>, input: string, j: nat)
    requires j < |SearchView(banks, input).items|
    ensures exists b :: b in banks && Matches(b, Keyword(input)) && SearchView(banks, input).items[j] == ItemText(b)
  {
    var kw := Keyword(input);
    var listed := Listed(banks, kw);
    var f := Filter(banks, kw);
    assert listed[j] == f[j];
    assert f[j] in banks && Matches(f[j], kw);
  }

  /** A keyword of white space alone clears and hides the list. */
  lemma BlankKeywordHides(banks: seq<Bank>, input: string)
    requires AllJsSpace(input)
    ensures SearchView(banks, input) == View(true, [])
  {
    TrimEmpty(input);
  }

  /** When no bank matches, the list is hidden and empty. */
  lemma NoMatchHides(banks: seq<Bank>, input: string)
    requires forall b :: b in banks ==> !Matches(b, Keyword(input))
    ensures SearchView(banks, input) == View(true, [])
  {
    FilterNone(banks, Keyword(input));
  }

  lemma {:induction false} FilterNone(banks: seq<Bank>, kw: string)
    requires forall b :: b in banks ==> !Matches(b, kw)
    ensures Filter(banks, kw) == []
  {
    if banks != [] {
      assert banks[0] in banks;
      FilterNone(banks[1..], kw);
    }
  }

  /** With a non-blank keyword every matching bank among the first fifty matches appears. */
  lemma MatchShown(banks: seq<Bank>, input: string, i: nat)
    requires Keyword(input) != ""
    requires i < |banks| && Matches(banks[i], Keyword(input))
    requires |Filter(banks[..i], Keyword(input))| < MaxListed
    ensures ItemText(banks[i]) in SearchView(banks, input).items
  {
    var kw := Keyword(input);
    FirstFiftyMatches(banks, kw, i);
    var before := |Filter(banks[..i], kw)|;
    var v := SearchView(banks, input);
    assert v.items[before] == ItemText(banks[i]);
  }

  /** The list element the handler fills: its items and whether it is hidden. */
  class BankList {
    var hidden: bool
    var items: seq<string>

    constructor ()
      ensures hidden && items == []
    {
      hidden, items := true, [];
    }

    /** The input handler: clears the list, returns early (hidden) on a blank keyword or
        no match, otherwise appends one item per listed bank and shows the list. */
    method Search(banks: seq<Bank>, input: string)
      modifies this
      ensures View(hidden, items) == SearchView(banks, input)
    {
      var kw := ToLower(Trim(input));
      items := [];
      if kw == "" {
        hidden := true;
        return;
      }
      var filtered := Listed(banks, kw);
      if |filtered| == 0 {
        hidden := true;
        return;
      }
      var i := 0;
      while i < |filtered|
        invariant 0 <= i <= |filtered|
        invariant items == Render(filtered[..i])
      {
        RenderStep(filtered, i);
        items := items + [ItemText(filtered[i])];
        i := i + 1;
      }
      assert filtered[..i] == filtered;
      hidden := false;
      assert View(hidden, items) == View(false, Render(filtered));
    }
  }
}
