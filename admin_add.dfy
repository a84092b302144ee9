/**
 * The add-product form, `app/admin/add/page.tsx`: the form fields, the two parallel image
 * lists (chosen files and their previews), the product row and its default size variants.
 */
module AdminAdd {
  import opened Wrappers
  import Strings
  import Seqs
  import NewDrops

  datatype ProductForm = ProductForm(
    name: string,
    description: string,
    price: string,
    category: string,
    subcategory: string)

  /** The `name` attributes of the form's inputs. */
  datatype FormField = Name | Description | Price | Category | Subcategory

  function FieldValue(form: ProductForm, f: FormField): string {
    match f
    case Name => form.name
    case Description => form.description
    case Price => form.price
    case Category => form.category
    case Subcategory => form.subcategory
  }

  /** `handleInputChange`: the named field takes the typed value; the others keep theirs. */
  function HandleInputChange(form: ProductForm, f: FormField, value: string): (r: ProductForm)
    ensures FieldValue(r, f) == value
    ensures forall g :: g != f ==> FieldValue(r, g) == FieldValue(form, g)
  {
    match f
    case Name => form.(name := value)
    case Description => form.(description := value)
    case Price => form.(price := value)
    case Category => form.(category := value)
    case Subcategory => form.(subcategory := value)
  }

  /** `handleCategoryChange`: a new category clears the subcategory choice. */
  function HandleCategoryChange(form: ProductForm, category: string): (r: ProductForm)
    ensures r.category == category && r.subcategory == ""
    ensures forall g :: g != Category && g != Subcategory ==> FieldValue(r, g) == FieldValue(form, g)
  {
    form.(category := category, subcategory := "")
  }

  /** A chosen image file, identified by its name. */
  datatype File = File(name: string)

  /** `imageFiles` and `imagePreviews`, which the page keeps index-aligned. */
  datatype Images = Images(files: seq<File>, previews: seq<string>)

  predicate Aligned(im: Images) {
    |im.files| == |im.previews|
  }

  /**
   * `handleImageChange`: when files were chosen, they are appended to `imageFiles` and their
   * preview URLs, made by `previewUrl`, to `imagePreviews`.
   */
  function HandleImageChange(im: Images, chosen: Option<seq<File>>, previewUrl: File -> string): (r: Images)
    ensures chosen.None? ==> r == im
    ensures chosen.Some? ==>
              && r.files == im.files + chosen.value
              && |r.previews| == |im.previews| + |chosen.value|
              && r.previews[..|im.previews|] == im.previews
              && forall i :: 0 <= i < |chosen.value| ==> r.previews[|im.previews| + i] == previewUrl(chosen.value[i])
  {
    match chosen
    case None => im
    case Some(files) =>
      Images(im.files + files, im.previews + seq(|files|, i requires 0 <= i < |files| => previewUrl(files[i])))
  }

  /** Both lists grow by the same count, so they stay aligned. */
  lemma ImageChangeKeepsAlignment(im: Images, chosen: Option<seq<File>>, previewUrl: File -> string)
    requires Aligned(im)
    ensures Aligned(HandleImageChange(im, chosen, previewUrl))
    ensures var r := HandleImageChange(im, chosen, previewUrl);
      forall i :: |im.files| <= i < |r.files| ==> r.previews[i] == previewUrl(r.files[i])
  {
    var r := HandleImageChange(im, chosen, previewUrl);
    if chosen.Some? {
      forall i | |im.files| <= i < |r.files|
        ensures r.previews[i] == previewUrl(r.files[i])
      {
        assert r.previews[|im.previews| + (i - |im.files|)] == previewUrl(chosen.value[i - |im.files|]);
      }
    }
  }

  /** `prev.filter((_, i) => i !== index)`: the element at `index` is dropped, if there is one. */
  function RemoveAt<T>(s: seq<T>, index: int): (r: seq<T>)
    ensures 0 <= index < |s| ==> r == s[..index] + s[index + 1..]
    ensures !(0 <= index < |s|) ==> r == s
  {
    if s == [] then []
    else if index == 0 then s[1..]
    else
      Seqs.RemovalBehindHead(s, index);
      [s[0]] + RemoveAt(s[1..], index - 1)
  }

  /** `removeImage(index)`: the same position leaves both lists. */
  function RemoveImage(im: Images, index: int): Images {
    Images(RemoveAt(im.files, index), RemoveAt(im.previews, index))
  }

  /**
   * After a removal the lists are still aligned, and each remaining file keeps its own
   * preview: the pair at position j is the old pair at j, or at j + 1 past the removed place.
   */
  lemma RemoveImageKeepsPairs(im: Images, index: int)
    requires Aligned(im)
    ensures Aligned(RemoveImage(im, index))
    ensures var r := RemoveImage(im, index);
      forall j :: 0 <= j < |r.files| ==>
        var k := if 0 <= index <= j then j + 1 else j;
        r.files[j] == im.files[k] && r.previews[j] == im.previews[k]
  {
    var r := RemoveImage(im, index);
    if 0 <= index < |im.files| {
      forall j | 0 <= j < |r.files|
        ensures var k := if index <= j then j + 1 else j;
          r.files[j] == im.files[k] && r.previews[j] == im.previews[k]
      {
        RemovedAtPosition(im.files, index, j);
        RemovedAtPosition(im.previews, index, j);
      }
    }
  }

  /** Position j of a list with `index` removed holds the old element at j, or at j + 1 from `index` on. */
  lemma RemovedAtPosition<T>(s: seq<T>, index: int, j: int)
    requires 0 <= index < |s| && 0 <= j < |s| - 1
    ensures RemoveAt(s, index)[j] == s[if index <= j then j + 1 else j]
  {
    var r := RemoveAt(s, index);
    assert r == s[..index] + s[index + 1..];
    if j < index {
      assert r[j] == s[..index][j];
    } else {
      assert r[j] == s[index + 1..][j - index];
    }
  }

  /** Default variant sizes by category. */
  const BootSizes: seq<string> := ["US 8", "US 9", "US 10", "US 11"]
  const FootballSizes: seq<string> := ["Size 5", "Size 4"]
  const StandardSizes: seq<string> := ["S", "M", "L", "XL"]

  /** `let sizes = …`: the standard letters, replaced for Boots and then for Footballs. */
  method DefaultSizes(category: string) returns (sizes: seq<string>)
    ensures category == "Boots" ==> sizes == BootSizes
    ensures category == "Footballs" ==> sizes == FootballSizes
    ensures category != "Boots" && category != "Footballs" ==> sizes == StandardSizes
  {
    sizes := StandardSizes;
    if category == "Boots" {
      sizes := BootSizes;
    }
    if category == "Footballs" {
      sizes := FootballSizes;
    }
  }

  datatype Variant = Variant(product_id: int, size: string, stock_count: int)

  /** `sizes.map(...)`: one variant per size, in order, for the new product, 20 in stock. */
  function VariantRows(productId: int, sizes: seq<string>): (rows: seq<Variant>)
    ensures |rows| == |sizes|
    ensures forall i :: 0 <= i < |sizes| ==>
              rows[i].product_id == productId && rows[i].size == sizes[i] && rows[i].stock_count == 20
  {
    if sizes == [] then [] else [Variant(productId, sizes[0], 20)] + VariantRows(productId, sizes[1..])
  }

  /** `uploadedImageUrls[0] || ""`: the first uploaded URL is the main image. */
  function MainImageUrl(uploaded: seq<string>): (url: string)
    ensures uploaded == [] ==> url == ""
    ensures uploaded != [] ==> url == uploaded[0]
  {
    if uploaded == [] then "" else uploaded[0]
  }

  datatype ProductRow = ProductRow(
    name: string,
    description: string,
    price: real,
    category: string,
    subcategory: string,
    image_url: string,
    image_urls: seq<string>,
    is_featured: bool)

  /**
   * The row inserted into `products`: the form's text fields, the parsed price, the first
   * upload as the main image, every upload as the gallery, and featured.
   */
  function ProductRowFor(form: ProductForm, price: real, uploaded: seq<string>): (row: ProductRow)
    ensures row.name == form.name && row.description == form.description && row.price == price
    ensures row.category == form.category && row.subcategory == form.subcategory
    ensures row.image_urls == uploaded && row.is_featured
    ensures row.image_url == "" <==> uploaded == [] || uploaded[0] == ""
    ensures uploaded != [] ==> row.image_url == row.image_urls[0]
  {
    ProductRow(form.name, form.description, price, form.category, form.subcategory,
               MainImageUrl(uploaded), uploaded, true)
  }

  /** The Boots default variants are the upper sizes of the footwear family the new-drops page offers. */
  lemma BootDefaultsOfferedOnShop(category: string, subcategory: Option<string>)
    requires category == "Boots"
    ensures NewDrops.DetermineSizeType(category, subcategory) == "footwear"
    ensures BootSizes == NewDrops.SizeConfig["footwear"][2..]
  {
    assert Strings.ToLower(category) == "boots";
    NewDrops.ExactCategoryFamily(category, subcategory);
  }

  /** The Footballs default variants are the two ball sizes the new-drops page offers, listed the other way round. */
  lemma FootballDefaultsOfferedOnShop(category: string, subcategory: Option<string>)
    requires category == "Footballs"
    ensures NewDrops.DetermineSizeType(category, subcategory) == "balls"
    ensures NewDrops.SizeConfig["balls"] == [FootballSizes[1], FootballSizes[0]]
  {
    assert Strings.ToLower(category) == "footballs";
    NewDrops.ExactCategoryFamily(category, subcategory);
  }

  /**
   * A Goalkeeper product gets the letter sizes, which the new-drops page does not offer for
   * it: the page classifies Goalkeeper products as gloves.
   */
  lemma GoalkeeperDefaultsNotOffered(category: string, subcategory: Option<string>)
    requires category == "Goalkeeper"
    ensures "S" in StandardSizes
    ensures "S" !in NewDrops.SizeConfig[NewDrops.DetermineSizeType(category, subcategory)]
  {
    NewDrops.ExactCategoryFamily(category, subcategory);
    assert Strings.ToLower(category) == "goalkeeper";
    var gloves := NewDrops.SizeConfig["gloves"];
    assert gloves == ["Size 7", "Size 8", "Size 9", "Size 10", "Size 11"];
    assert forall i :: 0 <= i < |gloves| ==> |gloves[i]| >= 6;
  }
}
