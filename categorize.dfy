/**
 * suggestCategory: the rule-based category hint for a transaction name. The
 * lower-cased name is looked up in the brand table, then in the keyword
 * rules, first match winning; failing both, a whole word "bill" suggests
 * "Bills".
 */
module Categorize {
  import opened Wrappers

  /** A table entry: any of `words` occurring in the text suggests `category`. */
  datatype Entry = Entry(words: seq<string>, category: string)

  /** brandMap, in its key order; each brand is a one-word entry. */
  const Brands: seq<Entry> := [
    Entry(["dominos"], "Food"),
    Entry(["mcdonald"], "Food"),
    Entry(["pizza"], "Food"),
    Entry(["starbucks"], "Food"),
    Entry(["flipkart"], "Shopping"),
    Entry(["amazon"], "Shopping"),
    Entry(["netflix"], "Entertainment"),
    Entry(["paytm"], "Bills")
  ]

  /** The keyword rules, in order ("salary" is listed twice in the first one). */
  const Rules: seq<Entry> := [
    Entry(["salary", "pay", "salary"], "Salary"),
    Entry(["uber", "ola", "taxi", "bus", "metro", "train"], "Transport"),
    Entry(["grocery", "grocer", "supermarket", "dmart", "bigbasket"], "Food"),
    Entry(["rent", "apartment", "house"], "Bills"),
    Entry(["subscription", "netflix", "spotify", "prime"], "Entertainment"),
    Entry(["amazon", "flipkart", "mall", "shop"], "Shopping"),
    Entry(["doctor", "hospital", "pharmacy", "clinic"], "Health")
  ]

  /** The brands and then the rules: the order in which suggestCategory tries them. */
  const Table: seq<Entry> := Brands + Rules

  /** Every category the suggester can produce. */
  const Suggestable: set<string> :=
    {"Food", "Shopping", "Entertainment", "Bills", "Salary", "Transport", "Health"}

  /** `toLowerCase` on ASCII letters. */
  function ToLower(s: string): (r: string)
    ensures |r| == |s|
    ensures forall i :: 0 <= i < |s| ==> r[i] == if 'A' <= s[i] <= 'Z' then (s[i] as int + 32) as char else s[i]
  {
    if s == [] then []
    else [if 'A' <= s[0] <= 'Z' then (s[0] as int + 32) as char else s[0]] + ToLower(s[1..])
  }

  predicate OccursAt(s: string, w: string, i: int)
  {
    0 <= i <= |s| - |w| && s[i..i + |w|] == w
  }

  /** `s.includes(w)`. */
  predicate Contains(s: string, w: string)
  {
    exists i :: 0 <= i <= |s| - |w| && OccursAt(s, w, i)
  }

  predicate Matches(text: string, e: Entry)
  {
    exists k :: 0 <= k < |e.words| && Contains(text, e.words[k])
  }

  /** The category of the first entry of the table with a word in `text`. */
  function FirstMatch(table: seq<Entry>, text: string): (r: Option<string>)
    ensures r.None? <==> forall j :: 0 <= j < |table| ==> !Matches(text, table[j])
    ensures r.Some? ==> exists j :: 0 <= j < |table| && Matches(text, table[j]) &&
                                    r.value == table[j].category &&
                                    forall k :: 0 <= k < j ==> !Matches(text, table[k])
  {
    if table == [] then None
    else if Matches(text, table[0]) then Some(table[0].category)
    else
      var r := FirstMatch(table[1..], text);
      assert r.Some? ==> exists j :: 1 <= j < |table| && Matches(text, table[j]) &&
                                     r.value == table[j].category &&
                                     forall k :: 0 <= k < j ==> !Matches(text, table[k]) by {
        if r.Some? {
          var j :| 0 <= j < |table| - 1 && Matches(text, table[1..][j]) && r.value == table[1..][j].category &&
                   forall k :: 0 <= k < j ==> !Matches(text, table[1..][k]);
          NoEarlierMatchShifted(table, text, j);
        }
      }
      r
  }

  /** Entry j + 1 of the table is its first match when entry j of the tail is the tail's first match. */
  lemma NoEarlierMatchShifted(table: seq<Entry>, text: string, j: nat)
    requires j + 1 < |table| && !Matches(text, table[0])
    requires Matches(text, table[1..][j])
    requires forall k :: 0 <= k < j ==> !Matches(text, table[1..][k])
    ensures table[j + 1] == table[1..][j]
    ensures forall k :: 0 <= k < j + 1 ==> !Matches(text, table[k])
  {
    forall k | 1 <= k < j + 1 ensures !Matches(text, table[k]) {
      assert table[k] == table[1..][k - 1];
    }
  }

  /** JavaScript's \w: an ASCII letter, digit or underscore. */
  predicate IsWordChar(c: char)
  {
    'a' <= c <= 'z' || 'A' <= c <= 'Z' || '0' <= c <= '9' || c == '_'
  }

  /** The regular expression /\bbill\b/: "bill" with no word character on either side. */
  predicate HasWordBill(t: string)
  {
    exists i :: 0 <= i <= |t| - 4 && WordBillAt(t, i)
  }

  predicate WordBillAt(t: string, i: int)
  {
    OccursAt(t, "bill", i) && (i == 0 || !IsWordChar(t[i - 1])) && (i + 4 == |t| || !IsWordChar(t[i + 4]))
  }

  /**
   * The lookup of suggestCategory over a brand table and a rule table: ""
   * for an empty text; otherwise the first brand found in the lower-cased
   * text, else the first rule with a word in it, else "Bills" for a whole
   * word "bill", else "".
   */
  function Suggest(brands: seq<Entry>, rules: seq<Entry>, text: string): (r: string)
    ensures text == "" ==> r == ""
    ensures r == "" || r == "Bills" || exists e :: e in brands + rules && r == e.category
    ensures text != "" && (forall j :: 0 <= j < |brands + rules| ==> !Matches(ToLower(text), (brands + rules)[j])) ==>
      r == if HasWordBill(ToLower(text)) then "Bills" else ""
  {
    if text == "" then ""
    else
      var t := ToLower(text);
      FirstMatchOfConcat(brands, rules, t);
      match FirstMatch(brands, t)
      case Some(c) => c
      case None =>
        match FirstMatch(rules, t)
        case Some(c) => c
        case None => if HasWordBill(t) then "Bills" else ""
  }

  /** suggestCategory(text) with the source's brandMap and rules. */
  function SuggestCategory(text: string): (r: string)
    ensures text == "" ==> r == ""
    ensures r == "" || r in Suggestable
  {
    assert forall e :: e in Table ==> e.category in Suggestable;
    Suggest(Brands, Rules, text)
  }

  /** Looking up two tables in turn is looking up their concatenation. */
  lemma {:induction false} FirstMatchOfConcat(a: seq<Entry>, b: seq<Entry>, text: string)
    ensures FirstMatch(a + b, text) == if FirstMatch(a, text).Some? then FirstMatch(a, text) else FirstMatch(b, text)
  {
    if a == [] {
      assert a + b == b;
    } else {
      assert (a + b)[0] == a[0];
      assert (a + b)[1..] == a[1..] + b;
      FirstMatchOfConcat(a[1..], b, text);
    }
  }

  /**
   * The suggester is one ordered first-match lookup over the brands followed
   * by the rules: when some entry matches, the answer is the category of the
   * earliest matching entry, so a brand always wins over every rule and an
   * earlier rule over a later one.
   */
  lemma SuggestIsFirstMatch(brands: seq<Entry>, rules: seq<Entry>, text: string, j: nat)
    requires text != ""
    requires j < |brands + rules| && Matches(ToLower(text), (brands + rules)[j])
    requires forall k :: 0 <= k < j ==> !Matches(ToLower(text), (brands + rules)[k])
    ensures Suggest(brands, rules, text) == (brands + rules)[j].category
  {
    var t := ToLower(text);
    var table := brands + rules;
    FirstMatchOfConcat(brands, rules, t);
    var r := FirstMatch(table, t);
    var i :| 0 <= i < |table| && Matches(t, table[i]) && r.value == table[i].category &&
             forall k :: 0 <= k < i ==> !Matches(t, table[k]);
    assert i == j;
  }

  /**
   * No suggestion exactly when the text is empty, or when no brand or
   * keyword occurs in it and it has no whole word "bill".
   */
  lemma SuggestNothingIff(brands: seq<Entry>, rules: seq<Entry>, text: string)
    requires forall e :: e in brands + rules ==> e.category != ""
    ensures Suggest(brands, rules, text) == "" <==>
      text == "" ||
      ((forall j :: 0 <= j < |brands + rules| ==> !Matches(ToLower(text), (brands + rules)[j])) &&
       !HasWordBill(ToLower(text)))
  {
    if text != "" {
      var t := ToLower(text);
      FirstMatchOfConcat(brands, rules, t);
      var r := FirstMatch(brands + rules, t);
      if r.Some? {
        var j :| 0 <= j < |brands + rules| && Matches(t, (brands + rules)[j]) && r.value == (brands + rules)[j].category &&
                 forall k :: 0 <= k < j ==> !Matches(t, (brands + rules)[k]);
        assert (brands + rules)[j] in brands + rules;
      }
    }
  }
}
