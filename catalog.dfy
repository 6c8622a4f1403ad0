/**
 * The static product catalog: the product record, the eight products the
 * shop sells and the "featured" selection (the four most popular products).
 * Prices are in cents and ratings in hundredths of a star.
 */
module Catalog {
  import opened Wrappers
  import opened JsNumber
  import opened Sequences

  datatype PetCategory = Cat | Dog | Both
  datatype ProductType = Food | Toy | Grooming

  /** The strings the source uses for the categories and types. */
  function CategoryName(c: PetCategory): string {
    match c
    case Cat => "cat"
    case Dog => "dog"
    case Both => "both"
  }

  function TypeName(t: ProductType): string {
    match t
    case Food => "food"
    case Toy => "toy"
    case Grooming => "grooming"
  }

  datatype ProductVariant = ProductVariant(id: string, labelText: string, priceDelta: Option<Num>, stock: int)

  datatype Product = Product(
    id: string,
    name: string,
    price: Num,
    category: PetCategory,
    productType: ProductType,
    rating: Num,
    image: string,
    tags: seq<string>,
    stock: int,
    vetApproved: bool,
    popularity: int,
    variants: Option<seq<ProductVariant>>)

  /** No two products share an id. */
  predicate UniqueIds(ps: seq<Product>) {
    forall i, j :: 0 <= i < j < |ps| ==> ps[i].id != ps[j].id
  }

  const Products: seq<Product> := [
    Product("op-001", "OrbitVet Salmon Bites (Sensitive Stomach)", 3200, Cat, Food, 470,
      "/images/products/salmon-bites.jpg", ["safe ingredients", "grain-free", "vet-approved"],
      24, true, 92,
      Some([ProductVariant("v-001a", "250g", None, 18), ProductVariant("v-001b", "500g", Some(1000), 6)])),
    Product("op-002", "CalmPaws Dental Chew (Vet Formula)", 1800, Dog, Food, 450,
      "/images/products/dental-chew.jpg", ["fresh breath", "vet-approved", "30-day returns"],
      40, true, 86,
      Some([ProductVariant("v-002a", "Small Dogs", None, 14), ProductVariant("v-002b", "Medium Dogs", None, 16),
            ProductVariant("v-002c", "Large Dogs", None, 10)])),
    Product("op-003", "HypoSoft Shampoo (No Harsh Fragrance)", 2100, Both, Grooming, 460,
      "/images/products/hyposoft-shampoo.jpg", ["safe ingredients", "skin-friendly", "fast delivery"],
      12, true, 73, None),
    Product("op-004", "OrbitPlay Tug Rope (Reinforced Core)", 1400, Dog, Toy, 420,
      "/images/products/tug-rope.jpg", ["durable", "training", "fast delivery"],
      0, false, 64, None),
    Product("op-005", "QuietWhisker Feather Wand (Low-Shed)", 1200, Cat, Toy, 440,
      "/images/products/feather-wand.jpg", ["indoor play", "safe materials", "30-day returns"],
      33, true, 78, None),
    Product("op-006", "JointCare Omega Oil (Vet Blend)", 2700, Both, Food, 480,
      "/images/products/omega-oil.jpg", ["mobility", "vet-approved", "safe ingredients"],
      9, true, 95, None),
    Product("op-007", "PawGuard Nail Trimmer (Safety Stop)", 1600, Both, Grooming, 430,
      "/images/products/nail-trimmer.jpg", ["easy grip", "safe design", "fast delivery"],
      20, true, 70, None),
    Product("op-008", "PureBowl Slow Feeder (Anti-Gulp)", 1900, Dog, Grooming, 410,
      "/images/products/slow-feeder.jpg", ["digestive support", "dishwasher safe", "returns"],
      15, false, 60, None)
  ]

  lemma ProductsUniqueIds()
    ensures |Products| == 8 && UniqueIds(Products)
  {
    forall i, j | 0 <= i < j < |Products| ensures Products[i].id != Products[j].id {
      assert Products[i].id[5] != Products[j].id[5];
    }
  }

  /** The sort key of `(a, b) => b.popularity - a.popularity`: most popular first. */
  function PopularityKey(p: Product): int {
    -p.popularity
  }

  /** The number of featured products. */
  const FeaturedCount: nat := 4

  /** `products.slice().sort((a, b) => b.popularity - a.popularity).slice(0, 4)`. */
  function Featured(catalog: seq<Product>): (r: seq<Product>)
    ensures |r| == if |catalog| < FeaturedCount then |catalog| else FeaturedCount
  {
    var sorted := SortByKey(catalog, PopularityKey);
    sorted[..if |sorted| < FeaturedCount then |sorted| else FeaturedCount]
  }

  const FeaturedProducts: seq<Product> := Featured(Products)

  /** The featured products come most popular first. */
  lemma FeaturedByPopularity(catalog: seq<Product>)
    ensures forall i, j :: 0 <= i < j < |Featured(catalog)| ==>
      Featured(catalog)[i].popularity >= Featured(catalog)[j].popularity
  {
    var sorted := SortByKey(catalog, PopularityKey);
    assert forall i, j :: 0 <= i < j < |sorted| ==> PopularityKey(sorted[i]) <= PopularityKey(sorted[j]);
  }

  /**
   * Every featured product is a catalog product, and a catalog product that is
   * not featured is no more popular than any featured one.
   */
  lemma FeaturedAreMostPopular(catalog: seq<Product>)
    ensures forall f :: f in Featured(catalog) ==> f in catalog
    ensures forall p, f :: p in catalog && p !in Featured(catalog) && f in Featured(catalog) ==>
      p.popularity <= f.popularity
  {
    var sorted := SortByKey(catalog, PopularityKey);
    var m := |Featured(catalog)|;
    assert Featured(catalog) == sorted[..m];
    forall f | f in Featured(catalog) ensures f in catalog {
      assert f in multiset(sorted);
    }
    forall p, f | p in catalog && p !in Featured(catalog) && f in Featured(catalog)
      ensures p.popularity <= f.popularity
    {
      NotFeaturedNoMorePopular(catalog, p, f);
    }
  }

  lemma NotFeaturedNoMorePopular(catalog: seq<Product>, p: Product, f: Product)
    requires p in catalog && p !in Featured(catalog) && f in Featured(catalog)
    ensures p.popularity <= f.popularity
  {
    var sorted := SortByKey(catalog, PopularityKey);
    var m := |Featured(catalog)|;
    assert Featured(catalog) == sorted[..m];
    assert p in multiset(catalog);
    assert p in sorted;
    var i :| 0 <= i < |sorted| && sorted[i] == p;
    var j :| 0 <= j < m && sorted[j] == f;
    assert i >= m;
    assert PopularityKey(sorted[j]) <= PopularityKey(sorted[i]);
  }

  lemma {:induction false} UniqueIdsNoDuplicates(s: seq<Product>, x: Product)
    requires UniqueIds(s)
    ensures multiset(s)[x] <= 1
  {
    if s != [] {
      UniqueIdsNoDuplicates(s[1..], x);
      assert s == [s[0]] + s[1..];
      if s[0] == x {
        assert x !in s[1..];
      }
    }
  }

  /** Two positions of a sequence without repeated elements hold different elements. */
  lemma DistinctPositions(s: seq<Product>, i: nat, j: nat)
    requires i < j < |s|
    requires forall x :: multiset(s)[x] <= 1
    ensures s[i] != s[j]
  {
    assert s == s[..i] + [s[i]] + s[i + 1..j] + [s[j]] + s[j + 1..];
    var m := multiset(s);
    assert m == multiset(s[..i]) + multiset{s[i]} + multiset(s[i + 1..j]) + multiset{s[j]} + multiset(s[j + 1..]);
    assert m[s[i]] >= multiset{s[i]}[s[i]] + multiset{s[j]}[s[i]];
  }

  /** Featured products are distinct: their ids are unique when the catalog's are. */
  lemma FeaturedDistinct(catalog: seq<Product>)
    requires UniqueIds(catalog)
    ensures UniqueIds(Featured(catalog))
  {
    var sorted := SortByKey(catalog, PopularityKey);
    var r := Featured(catalog);
    forall x ensures multiset(sorted)[x] <= 1 {
      UniqueIdsNoDuplicates(catalog, x);
    }
    forall i, j | 0 <= i < j < |r| ensures r[i].id != r[j].id {
      assert r[i] == sorted[i] && r[j] == sorted[j];
      DistinctPositions(sorted, i, j);
      assert r[i] in multiset(catalog) && r[j] in multiset(catalog);
      var a :| 0 <= a < |catalog| && catalog[a] == r[i];
      var b :| 0 <= b < |catalog| && catalog[b] == r[j];
      assert a != b;
    }
  }

  /** The shop's catalog has four featured products, distinct and most popular first. */
  lemma FeaturedProductsFacts()
    ensures |FeaturedProducts| == 4 && UniqueIds(FeaturedProducts)
    ensures forall f :: f in FeaturedProducts ==> f in Products
  {
    ProductsUniqueIds();
    FeaturedDistinct(Products);
    FeaturedAreMostPopular(Products);
  }
}
