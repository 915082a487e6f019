/**
 * cart/models.py: the catalog's image upload paths and the `pre_save` hooks
 * that suffix a sub-category's or a product's name with its parent's name.
 */
module Catalog {
  import opened Wrappers
  import opened Text

  const CartObjectDir: string := "cart_object/"
  const Sub1Dir: string := "sub_1/"
  const FinalProductDir: string := "final_product/"
  const ImageExtension: string := ".png"

  /** The `max_length` of each model's `name`. */
  const CartObjectNameMax: nat := 25
  const Sub1NameMax: nat := 35
  const FinalProductNameMax: nat := 100

  /** The storage path an upload is renamed to: the directory, the instance's name, `.png`. */
  function UploadPath(dir: string, name: string): (p: string)
    ensures |p| == |dir| + |name| + |ImageExtension|
    ensures IsPrefix(dir, p) && p[|dir|..|dir| + |name|] == name
    ensures p[|p| - |ImageExtension|..] == ImageExtension
  {
    dir + name + ImageExtension
  }

  /** Reads the instance name back out of a path under `dir`. */
  function UploadedName(dir: string, path: string): Option<string>
  {
    if |path| >= |dir| + |ImageExtension| && path[..|dir|] == dir && path[|path| - |ImageExtension|..] == ImageExtension then
      Some(path[|dir|..|path| - |ImageExtension|])
    else None
  }

  /** The name an image was stored under can be recovered from its path. */
  lemma UploadPathRoundTrip(dir: string, name: string)
    ensures UploadedName(dir, UploadPath(dir, name)) == Some(name)
  {
    var path := UploadPath(dir, name);
    assert path[..|dir|] == dir;
    assert path[|path| - |ImageExtension|..] == ImageExtension;
    assert path[|dir|..|path| - |ImageExtension|] == name;
  }

  /** The three upload directories never share a path, whatever the names. */
  lemma UploadDirsDisjoint(a: string, b: string)
    ensures UploadPath(CartObjectDir, a) != UploadPath(Sub1Dir, b)
    ensures UploadPath(CartObjectDir, a) != UploadPath(FinalProductDir, b)
    ensures UploadPath(Sub1Dir, a) != UploadPath(FinalProductDir, b)
  {
    assert UploadPath(CartObjectDir, a)[0] == 'c';
    assert UploadPath(Sub1Dir, b)[0] == 's' && UploadPath(Sub1Dir, a)[0] == 's';
    assert UploadPath(FinalProductDir, b)[0] == 'f';
  }

  /**
   * The hooks' rule: a name that does not contain the parent's name gets
   * `_` and the parent's name appended; any other name is kept.
   */
  function SuffixedName(name: string, parent: string): (r: string)
    ensures Contains(r, parent)
    ensures Contains(name, parent) ==> r == name
    ensures !Contains(name, parent) ==> r == name + "_" + parent
  {
    if Find(name, parent) == -1 then
      SuffixContained(name + "_", parent);
      name + "_" + parent
    else name
  }

  /** Running the hook on its own output changes nothing. */
  lemma SuffixIdempotent(name: string, parent: string)
    ensures SuffixedName(SuffixedName(name, parent), parent) == SuffixedName(name, parent)
  {
  }

  /** The hook adds at most the separator and the parent's name. */
  lemma SuffixLength(name: string, parent: string)
    ensures |name| <= |SuffixedName(name, parent)| <= |name| + 1 + |parent|
  {
  }

  /** A sub-category name within its limit can leave it once suffixed with a category name within its own. */
  lemma SuffixCanExceedSub1Limit()
    ensures var name := seq(Sub1NameMax, _ => 'a');
            var parent := seq(CartObjectNameMax, _ => 'b');
            |name| <= Sub1NameMax && |parent| <= CartObjectNameMax
            && |SuffixedName(name, parent)| > Sub1NameMax
  {
    var name := seq(Sub1NameMax, _ => 'a');
    var parent := seq(CartObjectNameMax, _ => 'b');
    assert !OccursAt(name, parent, 0) by {
      assert name[0] != parent[0];
    }
    assert !Contains(name, parent);
  }

  /** `CartObject`: a top-level category. */
  class CartObject {
    var name: string

    constructor (name: string)
      ensures this.name == name
    {
      this.name := name;
    }

    /** `renaming_uploaded_image1(instance, filename)`: the uploaded file's own name is ignored. */
    function ImagePath(filename: string): (path: string)
      reads this
      ensures UploadedName(CartObjectDir, path) == Some(name)
    {
      UploadPathRoundTrip(CartObjectDir, name);
      UploadPath(CartObjectDir, name)
    }
  }

  /** `Sub1`: a sub-category, linked to its category. */
  class Sub1 {
    var name: string
    var link: CartObject

    constructor (name: string, link: CartObject)
      ensures this.name == name && this.link == link
    {
      this.name := name;
      this.link := link;
    }

    /** `renaming_uploaded_image2(instance, filename)`. */
    function PhotoPath(filename: string): (path: string)
      reads this
      ensures UploadedName(Sub1Dir, path) == Some(name)
    {
      UploadPathRoundTrip(Sub1Dir, name);
      UploadPath(Sub1Dir, name)
    }
  }

  /** `FinalProduct`: a product, linked to its sub-category. */
  class FinalProduct {
    var name: string
    var link: Sub1

    constructor (name: string, link: Sub1)
      ensures this.name == name && this.link == link
    {
      this.name := name;
      this.link := link;
    }

    /** `renaming_uploaded_image3(instance, filename)`. */
    function PhotoPath(filename: string): (path: string)
      reads this
      ensures UploadedName(FinalProductDir, path) == Some(name)
    {
      UploadPathRoundTrip(FinalProductDir, name);
      UploadPath(FinalProductDir, name)
    }
  }

  /** The `pre_save` hook of `Sub1` (`create_sub1`): the name gains its category's name. */
  method CreateSub1(instance: Sub1)
    modifies instance
    ensures instance.link == old(instance.link)
    ensures instance.name == SuffixedName(old(instance.name), instance.link.name)
  {
    if Find(instance.name, instance.link.name) == -1 {
      instance.name := instance.name + "_" + instance.link.name;
    }
  }

  /** The `pre_save` hook of `FinalProduct` (`create_final_product`): the same rule with the sub-category. */
  method CreateFinalProduct(instance: FinalProduct)
    modifies instance
    ensures instance.link == old(instance.link)
    ensures instance.name == SuffixedName(old(instance.name), instance.link.name)
  {
    if Find(instance.name, instance.link.name) == -1 {
      instance.name := instance.name + "_" + instance.link.name;
    }
  }
}
