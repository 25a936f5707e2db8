/** src/data/govSites.ts: the bundled directory of twenty government sites
    and the category list derived from it. */
module GovSites {
  import Text
  import Admin

  /** A bundled site: a `GovSite` without reviews and rating. */
  datatype Entry = Entry(id: string, title: string, url: string, description: string, category: string)

  const Site1 := Entry("1", "National Portal of India", "https://www.india.gov.in",
          "Single-window gateway to all central and state government services, news, forms, tenders and directories.",
          "General Services")
  const Site2 := Entry("2", "MyGov", "https://www.mygov.in",
          "Citizen-engagement platform for discussions, tasks, polls and feedback on government initiatives.",
          "Citizen Engagement")
  const Site3 := Entry("3", "Prime Minister's Office", "https://www.pmindia.gov.in",
          "Official site of the Prime Minister's Office—announcements, speeches, policies and press releases.",
          "Leadership")
  const Site4 := Entry("4", "Ministry of Home Affairs", "https://www.mha.gov.in",
          "Internal security, border management, citizenship, disaster management and public grievances.",
          "Security & Administration")
  const Site5 := Entry("5", "Ministry of Finance", "https://finmin.nic.in",
          "Budget, tax policy, financial sector regulation, public debt and expenditure management.",
          "Finance & Economics")
  const Site6 := Entry("6", "Ministry of External Affairs", "https://www.mea.gov.in",
          "India's foreign policy, diplomatic missions, consular services and international treaties.",
          "Foreign Affairs")
  const Site7 := Entry("7", "Ministry of Defence", "https://www.mod.gov.in",
          "Defence policy, armed forces oversight, procurement and veterans' affairs.",
          "Defence")
  const Site8 := Entry("8", "Ministry of Railways", "https://indianrailways.gov.in",
          "Railway network operations, passenger services, freight management and online ticketing (IRCTC).",
          "Transportation")
  const Site9 := Entry("9", "Ministry of Health & Family Welfare", "https://www.mohfw.gov.in",
          "National health policy, family welfare programs, disease control and medical education.",
          "Health & Welfare")
  const Site10 := Entry("10", "Ministry of Education", "https://www.education.gov.in",
          "School education, higher education, scholarships, e-learning initiatives and teacher training.",
          "Education")
  const Site11 := Entry("11", "Ministry of Agriculture & Farmers Welfare", "https://agricoop.nic.in",
          "Agricultural policy, farmer schemes, commodity pricing, market intelligence and credit support.",
          "Agriculture")
  const Site12 := Entry("12", "Ministry of Electronics & Information Technology", "https://www.meity.gov.in",
          "Digital India programs, IT policy, cybersecurity, e-governance and emerging technologies.",
          "Technology")
  const Site13 := Entry("13", "Ministry of Environment, Forest & Climate Change", "https://moef.gov.in",
          "Environmental protection, climate action, wildlife conservation and environmental impact assessments.",
          "Environment")
  const Site14 := Entry("14", "Ministry of Labour & Employment", "https://labour.gov.in",
          "Labour laws, social security, skill development, employment services and worker welfare programs.",
          "Employment")
  const Site15 := Entry("15", "Ministry of Women & Child Development", "https://wcd.nic.in",
          "Women's empowerment, child welfare schemes, juvenile justice and protection policies.",
          "Social Welfare")
  const Site16 := Entry("16", "Ministry of Housing & Urban Affairs", "https://mohua.gov.in",
          "Urban planning, housing schemes (PMAY), smart cities mission and urban infrastructure development.",
          "Urban Development")
  const Site17 := Entry("17", "Ministry of Petroleum & Natural Gas", "https://petroleum.nic.in",
          "Hydrocarbon exploration, refining, distribution, subsidies and new energy transitions.",
          "Energy")
  const Site18 := Entry("18", "Ministry of New & Renewable Energy", "https://mnre.gov.in",
          "Solar, wind, bioenergy, policy incentives and renewable integration targets.",
          "Energy")
  const Site19 := Entry("19", "Open Government Data Platform", "https://data.gov.in",
          "Central repository of open datasets, APIs and data-driven apps published by government entities.",
          "Data & Analytics")
  const Site20 := Entry("20", "Integrated Government Online Directory", "https://igod.gov.in",
          "Browse all central ministries, departments, statutory bodies, PSUs and field offices by category.",
          "General Services")

  const GovSitesData: seq<Entry> := [
    Site1, Site2, Site3, Site4, Site5, Site6, Site7, Site8, Site9, Site10,
    Site11, Site12, Site13, Site14, Site15, Site16, Site17, Site18, Site19, Site20]

  /** `govSitesData.map(site => site.category)`. */
  function CategoryColumn(entries: seq<Entry>): (r: seq<string>)
    ensures |r| == |entries|
    ensures forall i :: 0 <= i < |entries| ==> r[i] == entries[i].category
  {
    seq(|entries|, i requires 0 <= i < |entries| => entries[i].category)
  }

  /** `Array.from(new Set(...)).sort()` over the categories. */
  function Categories(entries: seq<Entry>): (r: seq<string>)
    ensures Text.StrictlySorted(r)
    ensures forall x :: x in r <==> x in CategoryColumn(entries)
  {
    Text.SortedDistinct(CategoryColumn(entries))
  }

  /** The bundled categories, in sorted order. */
  const SortedCategories := [
    "Agriculture", "Citizen Engagement", "Data & Analytics", "Defence", "Education",
    "Employment", "Energy", "Environment", "Finance & Economics", "Foreign Affairs",
    "General Services", "Health & Welfare", "Leadership", "Security & Administration",
    "Social Welfare", "Technology", "Transportation", "Urban Development"]

  lemma SortedCategoriesSorted()
    ensures Text.StrictlySorted(SortedCategories)
  {
    FirstNamesSorted();
    LastNamesSorted();
    Text.NeighboursSorted(SortedCategories);
  }

  /** The first ten names are in order. */
  lemma FirstNamesSorted()
    ensures forall i :: 0 <= i < 9 ==> Text.LexLess(SortedCategories[i], SortedCategories[i + 1])
  {
    var s := SortedCategories;
    forall i | 0 <= i < 9 ensures Text.LexLess(s[i], s[i + 1]) {
      if i == 0 { assert Text.LexLess("Agriculture", "Citizen Engagement");
      } else if i == 1 { assert Text.LexLess("Citizen Engagement", "Data & Analytics");
      } else if i == 2 { assert Text.LexLess("Data & Analytics", "Defence");
      } else if i == 3 { assert Text.LexLess("Defence", "Education");
      } else if i == 4 { assert Text.LexLess("Education", "Employment");
      } else if i == 5 { assert Text.LexLess("Employment", "Energy");
      } else if i == 6 { assert Text.LexLess("Energy", "Environment");
      } else if i == 7 { assert Text.LexLess("Environment", "Finance & Economics");
      } else { assert Text.LexLess("Finance & Economics", "Foreign Affairs");
      }
    }
  }

  /** The last nine names are in order. */
  lemma LastNamesSorted()
    ensures forall i :: 9 <= i < 17 ==> Text.LexLess(SortedCategories[i], SortedCategories[i + 1])
  {
    var s := SortedCategories;
    forall i | 9 <= i < 17 ensures Text.LexLess(s[i], s[i + 1]) {
      if i == 9 { assert Text.LexLess("Foreign Affairs", "General Services");
      } else if i == 10 { assert Text.LexLess("General Services", "Health & Welfare");
      } else if i == 11 { assert Text.LexLess("Health & Welfare", "Leadership");
      } else if i == 12 { assert Text.LexLess("Leadership", "Security & Administration");
      } else if i == 13 { assert Text.LexLess("Security & Administration", "Social Welfare");
      } else if i == 14 { assert Text.LexLess("Social Welfare", "Technology");
      } else if i == 15 { assert Text.LexLess("Technology", "Transportation");
      } else { assert Text.LexLess("Transportation", "Urban Development");
      }
    }
  }

  /** The category column of the twenty records, record by record. */
  const DataColumn := [
    "General Services", "Citizen Engagement", "Leadership", "Security & Administration",
    "Finance & Economics", "Foreign Affairs", "Defence", "Transportation", "Health & Welfare",
    "Education", "Agriculture", "Technology", "Environment", "Employment", "Social Welfare",
    "Urban Development", "Energy", "Energy", "Data & Analytics", "General Services"]

  lemma DataCategories0()
    ensures forall i :: 0 <= i < 5 ==> GovSitesData[i].category == DataColumn[i]
  {
    var e0 := GovSitesData[0];
    var e1 := GovSitesData[1];
    var e2 := GovSitesData[2];
    var e3 := GovSitesData[3];
    var e4 := GovSitesData[4];
  }

  lemma DataCategories1()
    ensures forall i :: 5 <= i < 10 ==> GovSitesData[i].category == DataColumn[i]
  {
    var e5 := GovSitesData[5];
    var e6 := GovSitesData[6];
    var e7 := GovSitesData[7];
    var e8 := GovSitesData[8];
    var e9 := GovSitesData[9];
  }

  lemma DataCategories2()
    ensures forall i :: 10 <= i < 15 ==> GovSitesData[i].category == DataColumn[i]
  {
    var e10 := GovSitesData[10];
    var e11 := GovSitesData[11];
    var e12 := GovSitesData[12];
    var e13 := GovSitesData[13];
    var e14 := GovSitesData[14];
  }

  lemma DataCategories3()
    ensures forall i :: 15 <= i < 20 ==> GovSitesData[i].category == DataColumn[i]
  {
    var e15 := GovSitesData[15];
    var e16 := GovSitesData[16];
    var e17 := GovSitesData[17];
    var e18 := GovSitesData[18];
    var e19 := GovSitesData[19];
  }

  lemma ColumnOfData()
    ensures CategoryColumn(GovSitesData) == DataColumn
  {
    DataCategories0();
    DataCategories1();
    DataCategories2();
    DataCategories3();
  }

  lemma ColumnListed()
    ensures forall i :: 0 <= i < |DataColumn| ==> DataColumn[i] in SortedCategories
  {
    var d := DataColumn;
    var c := SortedCategories;
    forall i | 0 <= i < |d| ensures d[i] in c {
      if i == 0 { assert d[0] == c[10];
      } else if i == 1 { assert d[1] == c[1];
      } else if i == 2 { assert d[2] == c[12];
      } else if i == 3 { assert d[3] == c[13];
      } else if i == 4 { assert d[4] == c[8];
      } else if i == 5 { assert d[5] == c[9];
      } else if i == 6 { assert d[6] == c[3];
      } else if i == 7 { assert d[7] == c[16];
      } else if i == 8 { assert d[8] == c[11];
      } else if i == 9 { assert d[9] == c[4];
      } else if i == 10 { assert d[10] == c[0];
      } else if i == 11 { assert d[11] == c[15];
      } else if i == 12 { assert d[12] == c[7];
      } else if i == 13 { assert d[13] == c[5];
      } else if i == 14 { assert d[14] == c[14];
      } else if i == 15 { assert d[15] == c[17];
      } else if i == 16 { assert d[16] == c[6];
      } else if i == 17 { assert d[17] == c[6];
      } else if i == 18 { assert d[18] == c[2];
      } else { assert d[19] == c[10];
      }
    }
  }

  lemma ListedInColumn()
    ensures forall i :: 0 <= i < |SortedCategories| ==> SortedCategories[i] in DataColumn
  {
    var d := DataColumn;
    var c := SortedCategories;
    forall i | 0 <= i < |c| ensures c[i] in d {
      if i == 0 { assert c[0] == d[10];
      } else if i == 1 { assert c[1] == d[1];
      } else if i == 2 { assert c[2] == d[18];
      } else if i == 3 { assert c[3] == d[6];
      } else if i == 4 { assert c[4] == d[9];
      } else if i == 5 { assert c[5] == d[13];
      } else if i == 6 { assert c[6] == d[16];
      } else if i == 7 { assert c[7] == d[12];
      } else if i == 8 { assert c[8] == d[4];
      } else if i == 9 { assert c[9] == d[5];
      } else if i == 10 { assert c[10] == d[0];
      } else if i == 11 { assert c[11] == d[8];
      } else if i == 12 { assert c[12] == d[2];
      } else if i == 13 { assert c[13] == d[3];
      } else if i == 14 { assert c[14] == d[14];
      } else if i == 15 { assert c[15] == d[11];
      } else if i == 16 { assert c[16] == d[7];
      } else { assert c[17] == d[15];
      }
    }
  }

  /** Records whose categories are exactly the members of a strictly sorted
      list yield that list. */
  lemma CategoriesAre(entries: seq<Entry>, expected: seq<string>)
    requires Text.StrictlySorted(expected)
    requires forall x :: x in CategoryColumn(entries) <==> x in expected
    ensures Categories(entries) == expected
  {
    Text.SortedUnique(Categories(entries), expected);
  }

  /** The twenty records give exactly these eighteen categories, in this order. */
  lemma CategoriesOfData()
    ensures Categories(GovSitesData) == SortedCategories
    ensures |Categories(GovSitesData)| == 18
  {
    ColumnOfData();
    ColumnListed();
    ListedInColumn();
    SortedCategoriesSorted();
    CategoriesAre(GovSitesData, SortedCategories);
  }

  /** Every record's category is listed and every listed category is some
      record's. */
  lemma CategoriesCoverData()
    ensures forall i :: 0 <= i < |GovSitesData| ==> GovSitesData[i].category in Categories(GovSitesData)
    ensures forall x :: x in Categories(GovSitesData) ==> exists i :: 0 <= i < |GovSitesData| && GovSitesData[i].category == x
  {
    var column := CategoryColumn(GovSitesData);
    forall x | x in Categories(GovSitesData)
      ensures exists i :: 0 <= i < |GovSitesData| && GovSitesData[i].category == x
    {
      var i :| 0 <= i < |column| && column[i] == x;
    }
  }

  /** A category some entry carries is listed exactly once. */
  lemma ListedOnce(entries: seq<Entry>, i: int, x: string)
    requires 0 <= i < |entries| && entries[i].category == x
    ensures multiset(Categories(entries))[x] == 1
  {
    var c := Categories(entries);
    assert CategoryColumn(entries)[i] == x;
    assert x in c;
    Text.StrictlySortedOnce(c, x);
  }

  /** Records 17 and 18 are both "Energy", yet it is listed once. */
  lemma EnergyOnce()
    ensures GovSitesData[16].category == "Energy" && GovSitesData[17].category == "Energy"
    ensures multiset(Categories(GovSitesData))["Energy"] == 1
  {
    ListedOnce(GovSitesData, 16, "Energy");
  }

  /** Records 1 and 20 are both "General Services", yet it is listed once. */
  lemma GeneralServicesOnce()
    ensures GovSitesData[0].category == "General Services" && GovSitesData[19].category == "General Services"
    ensures multiset(Categories(GovSitesData))["General Services"] == 1
  {
    ListedOnce(GovSitesData, 0, "General Services");
  }

  /** The add-site form offers exactly the eighteen categories the bundled
      records yield (see `CategoriesOfData`), only in another order. */
  lemma OptionsAreSortedCategories()
    ensures |Admin.CategoryOptions| == 18
    ensures forall x :: x in SortedCategories <==> x in Admin.CategoryOptions
  {
    OptionsListed();
    ListedOffered();
  }

  lemma OptionsListed()
    ensures forall i :: 0 <= i < |Admin.CategoryOptions| ==> Admin.CategoryOptions[i] in SortedCategories
  {
    var o := Admin.CategoryOptions;
    var c := SortedCategories;
    forall i | 0 <= i < |o| ensures o[i] in c {
      if i == 0 { assert o[0] == c[10];
      } else if i == 1 { assert o[1] == c[1];
      } else if i == 2 { assert o[2] == c[12];
      } else if i == 3 { assert o[3] == c[13];
      } else if i == 4 { assert o[4] == c[8];
      } else if i == 5 { assert o[5] == c[9];
      } else if i == 6 { assert o[6] == c[3];
      } else if i == 7 { assert o[7] == c[16];
      } else if i == 8 { assert o[8] == c[11];
      } else if i == 9 { assert o[9] == c[4];
      } else if i == 10 { assert o[10] == c[0];
      } else if i == 11 { assert o[11] == c[15];
      } else if i == 12 { assert o[12] == c[7];
      } else if i == 13 { assert o[13] == c[5];
      } else if i == 14 { assert o[14] == c[14];
      } else if i == 15 { assert o[15] == c[17];
      } else if i == 16 { assert o[16] == c[6];
      } else { assert o[17] == c[2];
      }
    }
  }

  lemma ListedOffered()
    ensures forall i :: 0 <= i < |SortedCategories| ==> SortedCategories[i] in Admin.CategoryOptions
  {
    var o := Admin.CategoryOptions;
    var c := SortedCategories;
    forall i | 0 <= i < |c| ensures c[i] in o {
      if i == 0 { assert c[0] == o[10];
      } else if i == 1 { assert c[1] == o[1];
      } else if i == 2 { assert c[2] == o[17];
      } else if i == 3 { assert c[3] == o[6];
      } else if i == 4 { assert c[4] == o[9];
      } else if i == 5 { assert c[5] == o[13];
      } else if i == 6 { assert c[6] == o[16];
      } else if i == 7 { assert c[7] == o[12];
      } else if i == 8 { assert c[8] == o[4];
      } else if i == 9 { assert c[9] == o[5];
      } else if i == 10 { assert c[10] == o[0];
      } else if i == 11 { assert c[11] == o[8];
      } else if i == 12 { assert c[12] == o[2];
      } else if i == 13 { assert c[13] == o[3];
      } else if i == 14 { assert c[14] == o[14];
      } else if i == 15 { assert c[15] == o[11];
      } else if i == 16 { assert c[16] == o[7];
      } else { assert c[17] == o[15];
      }
    }
  }

  /** The ids "1" to "20" are pairwise distinct. */
  lemma IdsDistinct()
    ensures forall i, j :: 0 <= i < j < |GovSitesData| ==> GovSitesData[i].id != GovSitesData[j].id
  {
  }
}
