/** The all-banners page: one fetched list split into the home, offer, category and
    product-type lists, and the rule for an empty section. */
module BannersDisplay {
  import opened Common
  import opened Text
  import opened Catalog

  const HomeKind := "homebanner"
  const OfferKind := "offer"
  const CategoryKind := "category"
  const ProductTypeKind := "product-type"

  function HasKind(kind: string): Banner -> bool {
    (b: Banner) => b.kind == kind
  }

  /** `all.filter(b => b.type === kind)` */
  function OfKind(all: seq<Banner>, kind: string): (r: seq<Banner>)
    ensures forall b :: b in r <==> b in all && b.kind == kind
  {
    Filter(HasKind(kind), all)
  }

  /** The four lists the page shows. */
  datatype BannerLists = BannerLists(home: seq<Banner>, offer: seq<Banner>,
                                     category: seq<Banner>, productType: seq<Banner>)

  /** Nothing loaded yet. */
  function NoBanners(): (r: BannerLists)
    ensures r.home == [] && r.offer == [] && r.category == [] && r.productType == []
  {
    BannerLists([], [], [], [])
  }

  /** The split made by `fetchAllBanners`. */
  function Partition(all: seq<Banner>): (r: BannerLists)
    ensures forall b :: b in r.home <==> b in all && b.kind == HomeKind
    ensures forall b :: b in r.offer <==> b in all && b.kind == OfferKind
    ensures forall b :: b in r.category <==> b in all && b.kind == CategoryKind
    ensures forall b :: b in r.productType <==> b in all && b.kind == ProductTypeKind
  {
    BannerLists(OfKind(all, HomeKind), OfKind(all, OfferKind),
                OfKind(all, CategoryKind), OfKind(all, ProductTypeKind))
  }

  /** `fetchAllBanners`: a fetched list replaces all four lists; a failed fetch (`None`)
      leaves them as they were. */
  function AfterFetch(lists: BannerLists, fetched: Option<seq<Banner>>): (r: BannerLists)
    ensures fetched.None? ==> r == lists
    ensures fetched.Some? ==> r == Partition(fetched.value)
  {
    match fetched
    case None => lists
    case Some(all) => Partition(all)
  }

  /** No banner is in two lists, and a banner of any other type is in none. */
  lemma PartitionIsDisjoint(all: seq<Banner>, b: Banner)
    ensures var p := Partition(all);
            (if b in p.home then 1 else 0) + (if b in p.offer then 1 else 0)
            + (if b in p.category then 1 else 0) + (if b in p.productType then 1 else 0)
            == (if b in all && b.kind in {HomeKind, OfferKind, CategoryKind, ProductTypeKind}
                then 1 else 0)
  {
  }

  /** Together the four lists are no longer than the fetched list. */
  lemma {:induction false} PartitionFitsInput(all: seq<Banner>)
    ensures var p := Partition(all);
            |p.home| + |p.offer| + |p.category| + |p.productType| <= |all|
    decreases |all|
  {
    if all != [] {
      PartitionFitsInput(all[1..]);
    }
  }

  /** Each list keeps the fetched order: splitting a concatenation splits each part. */
  lemma PartitionConcat(a: seq<Banner>, b: seq<Banner>)
    ensures Partition(a + b) == BannerLists(
              Partition(a).home + Partition(b).home, Partition(a).offer + Partition(b).offer,
              Partition(a).category + Partition(b).category,
              Partition(a).productType + Partition(b).productType)
  {
    FilterConcat(HasKind(HomeKind), a, b);
    FilterConcat(HasKind(OfferKind), a, b);
    FilterConcat(HasKind(CategoryKind), a, b);
    FilterConcat(HasKind(ProductTypeKind), a, b);
  }

  /** What a section shows below its heading. */
  datatype SectionBody = Cards(banners: seq<Banner>) | EmptyNotice(text: string)

  /** `Section`: the banners when there are some, otherwise "No <title> found." with the
      title lower-cased. */
  function Section(title: string, banners: seq<Banner>): (r: SectionBody)
    ensures r.EmptyNotice? <==> banners == []
    ensures r.Cards? ==> r.banners == banners
    ensures r.EmptyNotice? ==> r.text == "No " + ToLower(title) + " found."
  {
    if |banners| > 0 then Cards(banners) else EmptyNotice("No " + ToLower(title) + " found.")
  }
}
