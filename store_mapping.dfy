/** `mapStoreToCategory`: the expense category of a store name, by exact key, then by the
    first key the name contains, then by capitalising each word of the name. */
module StoreMapping {
  import opened Basics
  import Text

  /** The store table, as the ordered list of its fourteen (key, category) pairs. */
  const StoreCategories: seq<(string, string)> := [
    ("migros", "Groceries"),
    ("coop", "Groceries"),
    ("denner", "Groceries"),
    ("aldi", "Groceries"),
    ("lidl", "Groceries"),
    ("bakery", "Food"),
    ("local market", "Groceries"),
    ("baker", "Food"),
    ("supermarket", "Groceries"),
    ("farmers market", "Groceries"),
    ("coffee shop", "Food"),
    ("restaurant", "Eating Out"),
    ("online", "Online"),
    ("amazon", "Online")
  ]

  /** The categories the table can produce. */
  predicate IsMappedCategory(c: string) {
    c == "Groceries" || c == "Food" || c == "Eating Out" || c == "Online"
  }

  /** Every category of the table is one of the four mapped categories. */
  predicate TableCategoriesMapped(table: seq<(string, string)>) {
    forall i :: 0 <= i < |table| ==> IsMappedCategory(table[i].1)
  }

  /** `storeCategoryMap[name]`: the category of the first entry whose key is `name`. */
  function ExactMatch(table: seq<(string, string)>, name: string): (r: Option<string>)
    ensures r.None? <==> forall i :: 0 <= i < |table| ==> table[i].0 != name
    ensures r.Some? ==> exists i :: 0 <= i < |table| && table[i] == (name, r.value)
                                    && forall j :: 0 <= j < i ==> table[j].0 != name
  {
    if table == [] then None
    else if table[0].0 == name then Some(table[0].1)
    else
      var r := ExactMatch(table[1..], name);
      assert forall i :: 0 < i < |table| ==> table[i] == table[1..][i - 1];
      if r.Some? then
        var i :| 0 <= i < |table[1..]| && table[1..][i] == (name, r.value)
                 && forall j :: 0 <= j < i ==> table[1..][j].0 != name;
        assert table[i + 1] == table[1..][i];
        r
      else
        r
  }

  /** The `for ... of Object.keys(...)` search: the category of the first key, in table
      order, that `name` contains. */
  function FirstContained(table: seq<(string, string)>, name: string): (r: Option<string>)
    ensures r.None? <==> forall i :: 0 <= i < |table| ==> !Text.Contains(name, table[i].0)
    ensures r.Some? ==> exists i :: 0 <= i < |table| && table[i].1 == r.value
                                    && Text.Contains(name, table[i].0)
                                    && forall j :: 0 <= j < i ==> !Text.Contains(name, table[j].0)
  {
    if table == [] then None
    else if Text.Contains(name, table[0].0) then Some(table[0].1)
    else
      var r := FirstContained(table[1..], name);
      assert forall i :: 0 < i < |table| ==> table[i] == table[1..][i - 1];
      if r.Some? then
        var i :| 0 <= i < |table[1..]| && table[1..][i].1 == r.value && Text.Contains(name, table[1..][i].0)
                 && forall j :: 0 <= j < i ==> !Text.Contains(name, table[1..][j].0);
        assert table[i + 1] == table[1..][i];
        r
      else
        r
  }

  /** `s[0]?.toUpperCase() + s.slice(1)`: an empty word turns into the text "undefined". */
  function CapitalizeWord(w: string): (r: string)
    ensures w == [] ==> r == "undefined"
    ensures w != [] ==> |r| == |w| && r[0] == Text.UpperChar(w[0]) && r[1..] == w[1..]
    ensures ' ' !in w ==> ' ' !in r
  {
    if w == [] then "undefined" else [Text.UpperChar(w[0])] + w[1..]
  }

  function CapitalizeWords(words: seq<string>): (r: seq<string>)
    ensures |r| == |words|
    ensures forall k :: 0 <= k < |words| ==> r[k] == CapitalizeWord(words[k])
  {
    if words == [] then [] else [CapitalizeWord(words[0])] + CapitalizeWords(words[1..])
  }

  /** `store.split(' ').map(...).join(' ')`, applied to the untrimmed name. It keeps the word
      structure: splitting the result on spaces gives the capitalised words of the store name,
      one for one. */
  function Fallback(store: string): (r: string)
    ensures Text.Split(r, ' ') == CapitalizeWords(Text.Split(store, ' '))
  {
    var words := CapitalizeWords(Text.Split(store, ' '));
    Text.SplitJoin(words, ' ');
    Text.Join(words, ' ')
  }

  /** The lookup key: `store.trim().toLowerCase()`. */
  function Normalise(store: string): (r: string)
    ensures |r| == |Text.Trim(store)|
    ensures r == [] || (!Text.IsSpace(r[0]) && !Text.IsSpace(r[|r| - 1]))
    ensures forall i :: 0 <= i < |r| ==> r[i] == Text.LowerChar(Text.Trim(store)[i])
    ensures forall i :: 0 <= i < |r| ==> !('A' <= r[i] <= 'Z')
  {
    Text.LowerIdempotent(Text.Trim(store));
    Text.Lower(Text.Trim(store))
  }

  /** Normalising a normalised name changes nothing. */
  lemma NormaliseIdempotent(store: string)
    ensures Normalise(Normalise(store)) == Normalise(store)
  {
    var n := Normalise(store);
    if n != [] {
      assert !Text.IsSpace(n[0]) && !Text.IsSpace(n[|n| - 1]);
      assert forall i :: 0 <= i < |n| ==> !('A' <= n[i] <= 'Z');
      NormaliseClean(n);
    } else {
      NormaliseEmpty();
    }
  }

  lemma NormaliseEmpty()
    ensures Normalise([]) == []
  {
    assert |Text.Trim([])| <= 0 by {
      Text.TrimEmptyIff([]);
    }
  }

  /** The three steps after the emptiness test, over any table: the exact key, then the
      first contained key, then the fallback on the untrimmed name. */
  function Categorise(table: seq<(string, string)>, name: string, store: string): (r: string)
    ensures ExactMatch(table, name).Some? ==> r == ExactMatch(table, name).value
    ensures ExactMatch(table, name).None? && FirstContained(table, name).Some? ==> r == FirstContained(table, name).value
    ensures ExactMatch(table, name).None? && FirstContained(table, name).None? ==> r == Fallback(store)
    ensures TableCategoriesMapped(table) && (ExactMatch(table, name).Some? || FirstContained(table, name).Some?) ==> IsMappedCategory(r)
  {
    match ExactMatch(table, name)
    case Some(c) => c
    case None =>
      match FirstContained(table, name)
      case Some(c) => c
      case None => Fallback(store)
  }

  /** An exact key decides: the category of the first entry whose key is the name. */
  lemma CategoriseExact(table: seq<(string, string)>, name: string, store: string, i: int)
    requires 0 <= i < |table| && table[i].0 == name
    requires forall j :: 0 <= j < i ==> table[j].0 != name
    ensures Categorise(table, name, store) == table[i].1
  {
    var r := ExactMatch(table, name);
    var k :| 0 <= k < |table| && table[k] == (name, r.value) && forall j :: 0 <= j < k ==> table[j].0 != name;
    assert !(k < i) && !(i < k);
  }

  /** Without an exact key, the first key in table order that the name contains decides. */
  lemma CategoriseContained(table: seq<(string, string)>, name: string, store: string, i: int)
    requires 0 <= i < |table|
    requires forall j :: 0 <= j < |table| ==> table[j].0 != name
    requires Text.Contains(name, table[i].0)
    requires forall j :: 0 <= j < i ==> !Text.Contains(name, table[j].0)
    ensures Categorise(table, name, store) == table[i].1
  {
    var r := FirstContained(table, name);
    var k :| 0 <= k < |table| && table[k].1 == r.value && Text.Contains(name, table[k].0)
             && forall j :: 0 <= j < k ==> !Text.Contains(name, table[j].0);
    assert !(k < i) && !(i < k);
  }

  lemma StoreTableMapped()
    ensures TableCategoriesMapped(StoreCategories)
  {
  }

  /** Whether a (non-empty) store name is found in the table, by exact key or by containment. */
  predicate Matched(store: string) {
    ExactMatch(StoreCategories, Normalise(store)).Some? || FirstContained(StoreCategories, Normalise(store)).Some?
  }

  /** `mapStoreToCategory(store)`; `None` stands for `null` and `undefined`. */
  function MapStoreToCategory(store: Option<string>): (r: string)
    ensures store.None? || store == Some([]) ==> r == "Uncategorized"
    ensures store.Some? && store.value != [] && Matched(store.value) ==> IsMappedCategory(r)
    ensures store.Some? && store.value != [] && !Matched(store.value) ==> r == Fallback(store.value)
  {
    StoreTableMapped();
    if store.None? || store.value == [] then "Uncategorized"
    else Categorise(StoreCategories, Normalise(store.value), store.value)
  }

  /** An exact key decides: the category is that of the first entry whose key is the
      normalised name. */
  lemma ExactKeyDecides(store: string, i: int)
    requires store != [] && 0 <= i < |StoreCategories|
    requires StoreCategories[i].0 == Normalise(store)
    requires forall j :: 0 <= j < i ==> StoreCategories[j].0 != Normalise(store)
    ensures MapStoreToCategory(Some(store)) == StoreCategories[i].1
  {
    CategoriseExact(StoreCategories, Normalise(store), store, i);
  }

  /** Without an exact key, the first key in table order that the normalised name contains
      decides. */
  lemma ContainedKeyDecides(store: string, i: int)
    requires store != [] && 0 <= i < |StoreCategories|
    requires forall j :: 0 <= j < |StoreCategories| ==> StoreCategories[j].0 != Normalise(store)
    requires Text.Contains(Normalise(store), StoreCategories[i].0)
    requires forall j :: 0 <= j < i ==> !Text.Contains(Normalise(store), StoreCategories[j].0)
    ensures MapStoreToCategory(Some(store)) == StoreCategories[i].1
  {
    CategoriseContained(StoreCategories, Normalise(store), store, i);
  }

  lemma TrimPaddedMigros()
    ensures Text.Trim("  MIGROS ") == "MIGROS"
  {
    assert "  MIGROS " == "  " + "MIGROS" + " ";
    Text.TrimPadded("  ", "MIGROS", " ");
  }

  lemma LowerMigros()
    ensures Text.Lower("MIGROS") == "migros"
  {
    var low := Text.Lower("MIGROS");
    assert low[0] == 'm' && low[1] == 'i' && low[2] == 'g' && low[3] == 'r' && low[4] == 'o' && low[5] == 's';
  }

  /** Lookup ignores surrounding white space and upper case: "  MIGROS " is a grocery store. */
  lemma PaddedUpperCaseName()
    ensures MapStoreToCategory(Some("  MIGROS ")) == "Groceries"
  {
    TrimPaddedMigros();
    LowerMigros();
    ExactKeyDecides("  MIGROS ", 0);
  }

  /** A name without upper-case letters and without surrounding spaces is already normal. */
  lemma NormaliseClean(s: string)
    requires s != [] && !Text.IsSpace(s[0]) && !Text.IsSpace(s[|s| - 1])
    requires forall i :: 0 <= i < |s| ==> !('A' <= s[i] <= 'Z')
    ensures Normalise(s) == s
  {
    assert [] + s + [] == s;
    Text.TrimPadded([], s, []);
    Text.LowerOfLowerCase(s);
  }

  lemma NormaliseMigrosZurich()
    ensures Normalise("migros zurich") == "migros zurich"
  {
    var s := "migros zurich";
    assert forall i :: 0 <= i < |s| ==> !('A' <= s[i] <= 'Z');
    NormaliseClean(s);
  }

  lemma NoExactMigrosZurich()
    ensures forall j :: 0 <= j < |StoreCategories| ==> StoreCategories[j].0 != "migros zurich"
  {
    assert forall i :: 0 <= i < |StoreCategories| ==> |StoreCategories[i].0| != 13;
  }

  lemma MigrosZurichContainsFirstKey()
    ensures Text.Contains("migros zurich", StoreCategories[0].0)
  {
    assert StoreCategories[0].0 == "migros";
    assert Text.OccursAt("migros zurich", "migros", 0);
  }

  /** Without an exact key, a key the name contains decides: "migros zurich" is a grocery store. */
  lemma ContainedKeyExample()
    ensures MapStoreToCategory(Some("migros zurich")) == "Groceries"
  {
    var s := "migros zurich";
    NormaliseMigrosZurich();
    NoExactMigrosZurich();
    MigrosZurichContainsFirstKey();
    ContainedKeyDecides(s, 0);
  }

  lemma SplitCornerShop()
    ensures Text.Split("corner shop", ' ') == ["corner", "shop"]
  {
    Text.SplitOfPiece("shop", ' ');
    Text.SplitAfterPiece("corner", ' ', "shop");
    assert "corner" + [' '] + "shop" == "corner shop";
  }

  lemma CapitalizeCornerShop()
    ensures CapitalizeWords(["corner", "shop"]) == ["Corner", "Shop"]
  {
    var w := ["corner", "shop"];
    assert w[1..] == ["shop"] && w[1..][1..] == [];
    assert "corner"[1..] == "orner";
    assert CapitalizeWord("corner") == "Corner";
    assert "shop"[1..] == "hop";
    assert CapitalizeWord("shop") == "Shop";
  }

  lemma JoinCornerShop()
    ensures Text.Join(["Corner", "Shop"], ' ') == "Corner Shop"
  {
    var p := ["Corner", "Shop"];
    assert p[1..] == ["Shop"];
    assert Text.Join(p, ' ') == "Corner" + [' '] + "Shop";
  }

  /** Unknown names are capitalised word by word. */
  lemma FallbackCapitalises()
    ensures Fallback("corner shop") == "Corner Shop"
  {
    SplitCornerShop();
    CapitalizeCornerShop();
    JoinCornerShop();
  }

  lemma SplitLeadingSpace()
    ensures Text.Split(" x", ' ') == ["", "x"]
  {
    Text.SplitOfPiece("x", ' ');
    Text.SplitAfterPiece("", ' ', "x");
    assert "" + [' '] + "x" == " x";
  }

  lemma CapitalizeLeadingSpace()
    ensures CapitalizeWords(["", "x"]) == ["undefined", "X"]
  {
    var w := ["", "x"];
    assert w[1..] == ["x"] && w[1..][1..] == [];
    assert CapitalizeWord("x") == "X";
  }

  lemma JoinLeadingSpace()
    ensures Text.Join(["undefined", "X"], ' ') == "undefined X"
  {
    var p := ["undefined", "X"];
    assert p[1..] == ["X"];
    assert Text.Join(p, ' ') == "undefined" + [' '] + "X";
  }

  /** The empty word before a leading space comes out as the text "undefined". */
  lemma FallbackLeadingSpace()
    ensures Fallback(" x") == "undefined X"
  {
    SplitLeadingSpace();
    CapitalizeLeadingSpace();
    JoinLeadingSpace();
  }
}
