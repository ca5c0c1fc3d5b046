/** The deals tab of the shopping page: the category filter over the loaded offers, the
    message shown when nothing is left, the store's own offers page, and the icon that stands
    in for a missing picture. */
module Deals {
  import opened Basics
  import Text
  import Seqs

  datatype Offer = Offer(title: string, price: string, image: Option<string>,
                         category: Option<string>, link: Option<string>)

  /** The stores with a link to their own offers page, in declaration order. */
  const StoreLinks: seq<(string, string)> := [
    ("Migros", "https://www.migros.ch/de/angebote"),
    ("Coop", "https://www.coop.ch/de/aktionen.html"),
    ("Denner", "https://www.denner.ch/de/aktionen/"),
    ("Aldi", "https://www.aldi-suisse.ch/de/angebote/"),
    ("Lidl", "https://www.lidl.ch/c/de-CH/angebote/a10006068")
  ]

  datatype Icon = Package | Apple | Milk | Drumstick | Croissant | Cookie

  /** The category buttons, in display order, with their icons. */
  const Categories: seq<(string, Icon)> := [
    ("All", Package),
    ("Fruits & Vegetables", Apple),
    ("Dairy", Milk),
    ("Meat", Drumstick),
    ("Bakery", Croissant),
    ("Sweets", Cookie)
  ]

  predicate Shown(o: Offer, selected: string) {
    selected == "All" || o.category == Some(selected)
  }

  /** `filteredOffers`: "All" keeps every offer, any other category keeps exactly the offers
      of that category, in their order. */
  function FilterOffers(offers: seq<Offer>, selected: string): (r: seq<Offer>)
    ensures selected == "All" ==> r == offers
    ensures forall i :: 0 <= i < |r| ==> r[i].category == Some(selected) || selected == "All"
    ensures forall i :: 0 <= i < |r| ==> r[i] in offers
    ensures forall i :: 0 <= i < |offers| && offers[i].category == Some(selected) ==> offers[i] in r
  {
    Seqs.Filter(offers, (o: Offer) => Shown(o, selected))
  }

  /** Filtering keeps the relative order of the offers: it distributes over concatenation. */
  lemma FilterKeepsOrder(a: seq<Offer>, b: seq<Offer>, selected: string)
    ensures FilterOffers(a + b, selected) == FilterOffers(a, selected) + FilterOffers(b, selected)
  {
    Seqs.FilterAppend(a, b, (o: Offer) => Shown(o, selected));
  }

  const DefaultEmptyMessage: string := "No offers found directly."

  /** The text shown when the filter leaves nothing, or `None` while the offers are loading
      (the spinner is shown instead) or when offers are listed. */
  function EmptyMessage(loading: bool, offers: seq<Offer>, selected: string, salesError: string): (r: Option<string>)
    ensures r.None? <==> loading || exists i :: 0 <= i < |offers| && Shown(offers[i], selected)
    ensures r.Some? && |offers| > 0 ==> r.value == "No offers found in \"" + selected + "\"."
    ensures r.Some? && |offers| == 0 && salesError != [] ==> r.value == salesError
    ensures r.Some? && |offers| == 0 && salesError == [] ==> r.value == DefaultEmptyMessage
  {
    var shown := FilterOffers(offers, selected);
    if loading then None
    else if |shown| > 0 then
      assert Shown(shown[0], selected);
      None
    else if |offers| > 0 then Some("No offers found in \"" + selected + "\".")
    else Some(if salesError != [] then salesError else DefaultEmptyMessage)
  }

  /** With "All" selected the category message never appears: loaded offers are all listed. */
  lemma AllShowsEveryOffer(offers: seq<Offer>, salesError: string)
    requires |offers| > 0
    ensures EmptyMessage(false, offers, "All", salesError).None?
  {
    assert Shown(offers[0], "All");
  }

  /** `current.toLowerCase().includes(store.toLowerCase())`. */
  predicate Mentions(current: string, store: string)
    ensures Mentions(current, store) ==> |store| <= |current|
    ensures store == [] ==> Mentions(current, store)
  {
    assert store == [] ==> Text.OccursAt(Text.Lower(current), Text.Lower(store), 0);
    Text.Contains(Text.Lower(current), Text.Lower(store))
  }

  /** The match ignores case: lower-casing either side first gives the same answer. */
  lemma MentionsIgnoresCase(current: string, store: string)
    ensures Mentions(current, store) <==> Mentions(Text.Lower(current), Text.Lower(store))
  {
    Text.LowerIdempotent(current);
    Text.LowerIdempotent(store);
  }

  /** The position of the first store of the table that `current` mentions, or the table's
      length when there is none. */
  function FirstMentioned(table: seq<(string, string)>, current: string): (k: nat)
    ensures k <= |table|
    ensures k < |table| ==> Mentions(current, table[k].0)
    ensures forall j :: 0 <= j < k ==> !Mentions(current, table[j].0)
  {
    if table == [] then 0
    else if Mentions(current, table[0].0) then 0
    else
      var k := FirstMentioned(table[1..], current);
      assert forall j :: 1 <= j < k + 1 ==> table[j] == table[1..][j - 1];
      k + 1
  }

  /** The link of the first store, in the table's key order, whose name `current` mentions
      ignoring case; none when no store is mentioned. */
  function FirstLink(table: seq<(string, string)>, current: string): (r: Option<string>)
    ensures r.None? <==> forall i :: 0 <= i < |table| ==> !Mentions(current, table[i].0)
    ensures r.Some? ==> exists i :: 0 <= i < |table| && table[i].1 == r.value
                                    && Mentions(current, table[i].0)
                                    && forall j :: 0 <= j < i ==> !Mentions(current, table[j].0)
  {
    var k := FirstMentioned(table, current);
    if k < |table| then Some(table[k].1) else None
  }

  /** The link of the "Open website" button: the matched store's page, or "#". */
  function StoreLink(current: string): (r: string)
    ensures r == "#" <==> forall i :: 0 <= i < |StoreLinks| ==> !Mentions(current, StoreLinks[i].0)
    ensures r != "#" ==> exists i :: 0 <= i < |StoreLinks| && StoreLinks[i].1 == r
                                      && Mentions(current, StoreLinks[i].0)
                                      && forall j :: 0 <= j < i ==> !Mentions(current, StoreLinks[j].0)
  {
    assert forall i :: 0 <= i < |StoreLinks| ==> StoreLinks[i].1 != "#";
    match FirstLink(StoreLinks, current)
    case Some(link) => link
    case None => "#"
  }

  lemma LowerCoop()
    ensures Text.Lower("Coop") == "coop"
  {
    var low := Text.Lower("Coop");
    assert low[0] == 'c' && low[1] == 'o' && low[2] == 'o' && low[3] == 'p';
  }

  lemma LowerMigros()
    ensures Text.Lower("Migros") == "migros"
  {
    var low := Text.Lower("Migros");
    assert low[0] == 'm' && low[1] == 'i' && low[2] == 'g' && low[3] == 'r' && low[4] == 'o' && low[5] == 's';
  }

  /** The store name as the buttons write it finds its own page. */
  lemma CoopLink()
    ensures StoreLink("Coop") == "https://www.coop.ch/de/aktionen.html"
  {
    CoopMentions();
    assert FirstMentioned(StoreLinks, "Coop") == 1;
  }

  lemma CoopMentions()
    ensures !Mentions("Coop", StoreLinks[0].0) && Mentions("Coop", StoreLinks[1].0)
  {
    LowerCoop();
    LowerMigros();
    Text.ContainsNoLonger("coop", "migros");
    Text.ContainsNoLonger("coop", "coop");
  }

  /** `table.find(c => c.name === category)?.icon`: the icon of the first entry with that name. */
  function FindIcon(table: seq<(string, Icon)>, category: Option<string>): (r: Option<Icon>)
    ensures r.None? <==> forall i :: 0 <= i < |table| ==> category != Some(table[i].0)
    ensures r.Some? ==> exists i :: 0 <= i < |table| && category == Some(table[i].0) && r.value == table[i].1
                                    && forall j :: 0 <= j < i ==> category != Some(table[j].0)
  {
    if table == [] then None
    else if category == Some(table[0].0) then Some(table[0].1)
    else
      var r := FindIcon(table[1..], category);
      assert forall i :: 0 < i < |table| ==> table[i] == table[1..][i - 1];
      if r.Some? then
        var i :| 0 <= i < |table[1..]| && category == Some(table[1..][i].0) && r.value == table[1..][i].1
                 && forall j :: 0 <= j < i ==> category != Some(table[1..][j].0);
        assert table[i + 1] == table[1..][i];
        r
      else
        r
  }

  /** The icon of an offer: its category's icon, or the package icon for a category that is
      missing or not among the buttons. */
  function CategoryIcon(category: Option<string>): (r: Icon)
    ensures (forall i :: 0 <= i < |Categories| ==> category != Some(Categories[i].0)) ==> r == Package
    ensures forall i :: 0 <= i < |Categories| && category == Some(Categories[i].0) ==> r == Categories[i].1
  {
    assert forall i, j :: 0 <= i < j < |Categories| ==> Categories[i].0 != Categories[j].0;
    FindIcon(Categories, category).GetOr(Package)
  }

  /** Offers without a category, and offers of an unlisted category, show the package icon. */
  lemma UnknownCategoryIcon()
    ensures CategoryIcon(None) == Package
    ensures CategoryIcon(Some("Drinks")) == Package
    ensures CategoryIcon(Some("Dairy")) == Milk
  {
    assert Categories[2].0 == "Dairy";
  }

  lemma LowerCoopUpper()
    ensures Text.Lower("COOP") == "coop"
  {
    var low := Text.Lower("COOP");
    assert low[0] == 'c' && low[1] == 'o' && low[2] == 'o' && low[3] == 'p';
  }

  /** A name written in another case than the table's key still finds the store's page. */
  lemma UpperCaseCoopLink()
    ensures StoreLink("COOP") == "https://www.coop.ch/de/aktionen.html"
  {
    LowerCoopUpper();
    LowerCoop();
    LowerMigros();
    Text.ContainsNoLonger("coop", "migros");
    Text.ContainsNoLonger("coop", "coop");
    assert !Mentions("COOP", StoreLinks[0].0) && Mentions("COOP", StoreLinks[1].0);
    assert FirstMentioned(StoreLinks, "COOP") == 1;
  }
}
