/** The marketplace listing form: its price filter, the submit guard, the
    listing text and the post it creates. Image reading, upload and the
    database write are outcomes passed in by the caller. */
module MarketplacePostDialog {
  import opened Wrappers
  import opened Numbers
  import opened Text
  import opened Posts

  const CategoryPlaceholder: string := "Select Category"
  const ConditionPlaceholder: string := "Select Condition"

  const ItemCategories: seq<string> := [
    "Books & Study Materials",
    "Electronics & Tech",
    "Dorm Furniture",
    "School Supplies",
    "Clothing & Accessories",
    "Sports Equipment",
    "Other"]

  const ItemConditions: seq<string> := ["New", "Like New", "Used (Good)", "Used (Fair)"]

  // ---------------------------------------------------------------------
  // The price filter
  // ---------------------------------------------------------------------

  /** The whole of `s` matches `^\d*\.?\d{0,2}$`: it splits into ASCII digits
      `s[..i]`, an optional point `s[i..j]` and at most two ASCII digits `s[j..]`. */
  ghost predicate MatchesPricePattern(s: string) {
    exists i, j :: 0 <= i <= j <= |s| && PriceSplit(s, i, j)
  }

  /** `s[..i]` is digits, `s[i..j]` empty or one '.', `s[j..]` at most two digits. */
  predicate PriceSplit(s: string, i: nat, j: nat)
    requires i <= j <= |s|
  {
    AllDigits(s[..i]) && (j == i || (j == i + 1 && s[i] == '.')) && AllDigits(s[j..]) && |s| - j <= 2
  }

  /** The pattern decided by a scan: digits up to the first '.', and if there
      is one, at most two digits after it. */
  predicate PriceShape(s: string) {
    var k := IndexOf(s, '.');
    AllDigits(s[..k]) && (k == |s| || (AllDigits(s[k + 1..]) && |s| - (k + 1) <= 2))
  }

  /** A price of the scanned shape matches the pattern. */
  lemma ShapeMatchesPattern(s: string)
    requires PriceShape(s)
    ensures MatchesPricePattern(s)
  {
    var k := IndexOf(s, '.');
    if k == |s| {
      assert s[k..] == [];
      assert PriceSplit(s, k, k);
    } else {
      assert PriceSplit(s, k, k + 1);
    }
  }

  /** Digits `s[..i]` then digits `s[i..]`: no point anywhere, so the
      scanned shape holds. */
  lemma DigitsOnly(s: string, i: nat)
    requires i <= |s| && AllDigits(s[..i]) && AllDigits(s[i..])
    ensures '.' !in s && PriceShape(s)
  {
    forall m | 0 <= m < |s| ensures IsDigit(s[..|s|][m]) && s[m] != '.' {
      if m < i { assert s[m] == s[..i][m]; } else { assert s[m] == s[i..][m - i]; }
    }
  }

  /** Digits `s[..i]` then a point: the first point is at `i`. */
  lemma FirstPointAt(s: string, i: nat)
    requires i < |s| && AllDigits(s[..i]) && s[i] == '.'
    ensures IndexOf(s, '.') == i
  {
    forall m | 0 <= m < i ensures s[m] != '.' {
      assert s[m] == s[..i][m];
    }
  }

  /** A string matching the pattern has the scanned shape. */
  lemma PatternHasShape(s: string)
    requires MatchesPricePattern(s)
    ensures PriceShape(s)
  {
    var i, j :| 0 <= i <= j <= |s| && PriceSplit(s, i, j);
    if j == i {
      DigitsOnly(s, i);
    } else {
      FirstPointAt(s, i);
    }
  }

  /** The scan decides exactly the pattern. */
  lemma PriceShapeIsPattern(s: string)
    ensures PriceShape(s) <==> MatchesPricePattern(s)
  {
    if PriceShape(s) {
      ShapeMatchesPattern(s);
    }
    if MatchesPricePattern(s) {
      PatternHasShape(s);
    }
  }

  /** `onValueChange` of the price field: an edit is accepted when it is empty
      or matches the pattern. */
  function AcceptsPrice(s: string): (r: bool)
    ensures r <==> MatchesPricePattern(s)
  {
    PriceShapeIsPattern(s);
    PriceShapeIsPattern("");
    s == "" || PriceShape(s)
  }

  /** A price of the accepted shape holds only ASCII digits and at most one
      '.', with at most two digits after it. */
  lemma StoredPriceShape(s: string)
    requires PriceShape(s)
    ensures forall i :: 0 <= i < |s| ==> IsDigit(s[i]) || s[i] == '.'
    ensures forall i, j :: 0 <= i < j < |s| && s[i] == '.' ==> s[j] != '.'
    ensures '.' in s ==> |s| - IndexOf(s, '.') - 1 <= 2
  {
    DigitsAroundPoint(s);
  }

  /** In a price of the accepted shape every character but the first point
      is a digit. */
  lemma DigitsAroundPoint(s: string)
    requires PriceShape(s)
    ensures forall m :: 0 <= m < |s| && m != IndexOf(s, '.') ==> IsDigit(s[m])
  {
    var k := IndexOf(s, '.');
    forall m | 0 <= m < |s| && m != k ensures IsDigit(s[m]) {
      if m < k { assert s[m] == s[..k][m]; } else { assert s[m] == s[k + 1..][m - k - 1]; }
    }
  }

  /** Conversely, a string of ASCII digits and points, with at most one point
      and at most two digits after it, has the accepted shape: the field takes it. */
  lemma WellFormedPriceAccepted(s: string)
    requires forall i :: 0 <= i < |s| ==> IsDigit(s[i]) || s[i] == '.'
    requires forall i, j :: 0 <= i < j < |s| && s[i] == '.' ==> s[j] != '.'
    requires '.' in s ==> |s| - IndexOf(s, '.') - 1 <= 2
    ensures PriceShape(s) && AcceptsPrice(s)
  {
    var k := IndexOf(s, '.');
    forall m | 0 <= m < k ensures IsDigit(s[..k][m]) {
      assert s[..k][m] == s[m];
    }
    if k < |s| {
      var t := s[k + 1..];
      forall m | 0 <= m < |t| ensures IsDigit(t[m]) {
        assert t[m] == s[k + 1 + m];
      }
    }
  }

  // ---------------------------------------------------------------------
  // The listing text
  // ---------------------------------------------------------------------

  function ListingLines(itemName: string, category: string, condition: string,
                        price: string, description: string): seq<string>
  {
    ["MARKETPLACE LISTING", "Item: " + itemName, "Category: " + category,
     "Condition: " + condition, "Price: $" + price, "", description]
  }

  /** The post body: one newline-terminated line per entry of `ListingLines`. */
  function ListingContent(itemName: string, category: string, condition: string,
                          price: string, description: string): string
  {
    Lines(ListingLines(itemName, category, condition, price, description))
  }

  /** The body is seven newline-terminated lines: it ends in a line feed and,
      when no field holds a line feed of its own, splits back into the heading,
      the four labelled fields, a blank line and the description. */
  lemma ListingContentLines(itemName: string, category: string, condition: string,
                            price: string, description: string)
    ensures var c := ListingContent(itemName, category, condition, price, description);
            c != "" && c[|c| - 1] == '\n'
    ensures '\n' !in itemName && '\n' !in category && '\n' !in condition
            && '\n' !in price && '\n' !in description
            ==> SplitLines(ListingContent(itemName, category, condition, price, description))
                == ["MARKETPLACE LISTING", "Item: " + itemName, "Category: " + category,
                    "Condition: " + condition, "Price: $" + price, "", description]
  {
    var ls := ListingLines(itemName, category, condition, price, description);
    LinesLength(ls);
    if '\n' !in itemName && '\n' !in category && '\n' !in condition
       && '\n' !in price && '\n' !in description {
      assert SingleLines(ls);
      SplitLinesOfLines(ls);
    }
  }

  // ---------------------------------------------------------------------
  // The form
  // ---------------------------------------------------------------------

  class MarketplaceForm {
    var itemName: string
    var selectedCategory: string
    var selectedCondition: string
    var price: string
    var description: string
    /** The chosen image, as its content URI. */
    var imageUri: Option<string>
    var isUploading: bool
    var errorMessage: Option<string>

    /** The stored price always has the accepted shape, and each dropdown shows
        its placeholder or one of its listed values. */
    ghost predicate Valid()
      reads this
    {
      PriceShape(price)
      && (selectedCategory == CategoryPlaceholder || selectedCategory in ItemCategories)
      && (selectedCondition == ConditionPlaceholder || selectedCondition in ItemConditions)
    }

    constructor ()
      ensures Valid()
      ensures itemName == "" && price == "" && description == ""
      ensures selectedCategory == CategoryPlaceholder && selectedCondition == ConditionPlaceholder
      ensures imageUri == None && !isUploading && errorMessage == None
    {
      itemName := "";
      selectedCategory := CategoryPlaceholder;
      selectedCondition := ConditionPlaceholder;
      price := "";
      description := "";
      imageUri := None;
      isUploading := false;
      errorMessage := None;
    }

    /** The item-name field, disabled while uploading. */
    method EditItemName(text: string)
      requires Valid()
      modifies this`itemName
      ensures Valid()
      ensures itemName == if isUploading then old(itemName) else text
    {
      if !isUploading {
        itemName := text;
      }
    }

    /** The description field, disabled while uploading. */
    method EditDescription(text: string)
      requires Valid()
      modifies this`description
      ensures Valid()
      ensures description == if isUploading then old(description) else text
    {
      if !isUploading {
        description := text;
      }
    }

    /** The price field: an accepted edit replaces the price, any other edit is
        dropped and the previous price stays; disabled while uploading. */
    method EditPrice(text: string)
      requires Valid()
      modifies this`price
      ensures Valid()
      ensures price == if !isUploading && AcceptsPrice(text) then text else old(price)
    {
      if !isUploading && AcceptsPrice(text) {
        PriceShapeIsPattern(text);
        price := text;
      }
    }

    /** Choosing one of the listed categories from the dropdown; the guard's
        category condition then holds. */
    method SelectCategory(category: string)
      requires Valid() && category in ItemCategories
      modifies this`selectedCategory
      ensures Valid() && selectedCategory == category
      ensures selectedCategory != CategoryPlaceholder
    {
      selectedCategory := category;
    }

    /** Choosing one of the listed conditions from the dropdown; the guard's
        condition check then holds. */
    method SelectCondition(condition: string)
      requires Valid() && condition in ItemConditions
      modifies this`selectedCondition
      ensures Valid() && selectedCondition == condition
      ensures selectedCondition != ConditionPlaceholder
    {
      selectedCondition := condition;
    }

    /** The image picker's answer: a picked image replaces the previous one,
        a cancelled pick keeps it. */
    method PickImage(uri: Option<string>)
      requires Valid()
      modifies this`imageUri
      ensures Valid()
      ensures imageUri == if uri.Some? then uri else old(imageUri)
    {
      if uri.Some? {
        imageUri := uri;
      }
    }

    /** "Post Listing" is enabled exactly when not uploading, name, price and
        description are not blank and both dropdowns hold a real choice. */
    predicate CanSubmit()
      reads this
    {
      !isUploading && IsNotBlank(itemName)
      && selectedCategory != CategoryPlaceholder && selectedCondition != ConditionPlaceholder
      && IsNotBlank(price) && IsNotBlank(description)
    }

    /** Pressing "Post Listing": when enabled, uploading starts and any earlier
        error is cleared. */
    method Submit() returns (started: bool)
      requires Valid()
      modifies this`isUploading, this`errorMessage
      ensures Valid()
      ensures started == old(CanSubmit())
      ensures started ==> isUploading && errorMessage == None
      ensures !started ==> isUploading == old(isUploading) && errorMessage == old(errorMessage)
    {
      started := CanSubmit();
      if started {
        isUploading := true;
        errorMessage := None;
      }
    }

    /** The end of a submission at clock time `now`: when everything was
        stored the new "Marketplace" post by "You" is handed to the feed;
        otherwise the failure is reported. Uploading ends either way. */
    method CompleteSubmit(outcome: SubmitOutcome, now: nat) returns (posted: Option<Post>)
      requires Valid()
      modifies this`isUploading, this`errorMessage
      ensures Valid() && !isUploading
      ensures outcome.Stored? ==>
                errorMessage == old(errorMessage)
                && posted == Some(NewPost(now, "You", "Marketplace",
                                          ListingContent(itemName, selectedCategory, selectedCondition, price, description),
                                          AttachmentUrl(imageUri.Some?, outcome.bytesRead, outcome.publicUrl)))
      ensures outcome.SubmitThrew? ==>
                posted == None && errorMessage == Some("Failed to create listing: " + Template(outcome.message))
    {
      match outcome {
        case Stored(bytesRead, publicUrl) =>
          var imageUrl := AttachmentUrl(imageUri.Some?, bytesRead, publicUrl);
          var content := ListingContent(itemName, selectedCategory, selectedCondition, price, description);
          posted := Some(NewPost(now, "You", "Marketplace", content, imageUrl));
        case SubmitThrew(m) =>
          posted := None;
          errorMessage := Some("Failed to create listing: " + Template(m));
      }
      isUploading := false;
    }
  }
}
