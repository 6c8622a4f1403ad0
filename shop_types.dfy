/** The applied filters of the shop page, shared by the URL codec and the page. */
module ShopTypes {
  import opened Wrappers
  import opened JsNumber
  import opened Catalog

  /** A category a shopper can select: `Exclude<PetCategory, "both">`. */
  type FilterCategory = c: PetCategory | c != Both witness Cat

  /**
   * The filters: selected categories and types (in selection order), the
   * price range `[min, max]`, the minimum rating (None for any) and the
   * vet-approved switch.
   */
  datatype FiltersState = FiltersState(
    categories: seq<FilterCategory>,
    types: seq<ProductType>,
    price: (Num, Num),
    minRating: Option<Num>,
    vetApprovedOnly: bool)
}
