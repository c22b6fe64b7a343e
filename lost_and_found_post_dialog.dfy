/** The lost-and-found form: the Lost/Found choice, the submit guard, the post
    text and the post it creates. Date formatting, image reading, upload and
    the database write are inputs or outcomes passed in by the caller. */
module LostAndFoundPostDialog {
  import opened Wrappers
  import opened Numbers
  import opened Text
  import opened Posts

  const PostTypes: seq<string> := ["Lost", "Found"]

  const CategoryPlaceholder: string := "Select Category"

  const ItemCategories: seq<string> := [
    "Books & Textbooks",
    "Electronics & Tech",
    "ID & Cards",
    "Clothing & Accessories",
    "Bags & Backpacks",
    "Sports Equipment",
    "Personal Items",
    "Other"]

  // ---------------------------------------------------------------------
  // The post text
  // ---------------------------------------------------------------------

  /** The first line: the upper-cased post type, a colon and the title. */
  function Header(postType: string, title: string): string {
    Upper(postType) + ": " + title
  }

  function PostLines(postType: string, title: string, category: string, location: string,
                     dateText: string, description: string): seq<string>
  {
    [Header(postType, title), "Category: " + category, "Location: " + location,
     "Date: " + dateText, "", description]
  }

  /** The post body: one newline-terminated line per entry of `PostLines`;
      `dateText` is the chosen date in the locale's "MMM dd, yyyy" format. */
  function PostContent(postType: string, title: string, category: string, location: string,
                       dateText: string, description: string): string
  {
    Lines(PostLines(postType, title, category, location, dateText, description))
  }

  /** The body ends in a line feed and, when no field holds a line feed of its
      own, splits back into the header, the three labelled fields, a blank line
      and the description. */
  lemma PostContentLines(postType: string, title: string, category: string, location: string,
                         dateText: string, description: string)
    ensures var c := PostContent(postType, title, category, location, dateText, description);
            c != "" && c[|c| - 1] == '\n'
    ensures '\n' !in postType && '\n' !in title && '\n' !in category && '\n' !in location
            && '\n' !in dateText && '\n' !in description
            ==> SplitLines(PostContent(postType, title, category, location, dateText, description))
                == [Upper(postType) + ": " + title, "Category: " + category, "Location: " + location,
                    "Date: " + dateText, "", description]
  {
    var ls := PostLines(postType, title, category, location, dateText, description);
    LinesLength(ls);
    if '\n' !in postType && '\n' !in title && '\n' !in category && '\n' !in location
       && '\n' !in dateText && '\n' !in description {
      assert '\n' !in Upper(postType) by {
        forall i | 0 <= i < |postType| ensures Upper(postType)[i] != '\n' {
          assert postType[i] != '\n';
        }
      }
      assert SingleLines(ls);
      SplitLinesOfLines(ls);
    }
  }

  // ---------------------------------------------------------------------
  // The form
  // ---------------------------------------------------------------------

  class LostAndFoundForm {
    /** "Lost" or "Found". */
    var postType: string
    var title: string
    var itemCategory: string
    /** The chosen date, in milliseconds since the epoch. */
    var selectedDate: int
    var location: string
    var description: string
    var attachmentUri: Option<string>
    var isUploading: bool
    var errorMessage: Option<string>

    /** The post type is always one of the two offered, and the category the
        placeholder or one of the listed ones. */
    ghost predicate Valid()
      reads this
    {
      postType in PostTypes
      && (itemCategory == CategoryPlaceholder || itemCategory in ItemCategories)
    }

    /** A new form is a "Lost" report dated now. */
    constructor (now: int)
      ensures Valid()
      ensures postType == "Lost" && itemCategory == CategoryPlaceholder && selectedDate == now
      ensures title == "" && location == "" && description == ""
      ensures attachmentUri == None && !isUploading && errorMessage == None
    {
      postType := "Lost";
      title := "";
      itemCategory := CategoryPlaceholder;
      selectedDate := now;
      location := "";
      description := "";
      attachmentUri := None;
      isUploading := false;
      errorMessage := None;
    }

    /** Choosing "Lost" or "Found" from the type dropdown. */
    method SelectPostType(t: string)
      requires Valid() && t in PostTypes
      modifies this`postType
      ensures Valid() && postType == t
    {
      postType := t;
    }

    /** Choosing one of the listed categories; the guard's category condition then holds. */
    method SelectCategory(category: string)
      requires Valid() && category in ItemCategories
      modifies this`itemCategory
      ensures Valid() && itemCategory == category
      ensures itemCategory != CategoryPlaceholder
    {
      itemCategory := category;
    }

    /** The date picker's "OK": a selected day replaces the date; none keeps it. */
    method ConfirmDate(millis: Option<int>)
      requires Valid()
      modifies this`selectedDate
      ensures Valid()
      ensures selectedDate == if millis.Some? then millis.value else old(selectedDate)
    {
      if millis.Some? {
        selectedDate := millis.value;
      }
    }

    /** The title field, disabled while uploading. */
    method EditTitle(text: string)
      requires Valid()
      modifies this`title
      ensures Valid()
      ensures title == if isUploading then old(title) else text
    {
      if !isUploading {
        title := text;
      }
    }

    /** The location field, disabled while uploading. */
    method EditLocation(text: string)
      requires Valid()
      modifies this`location
      ensures Valid()
      ensures location == if isUploading then old(location) else text
    {
      if !isUploading {
        location := text;
      }
    }

    /** The description field, disabled while uploading. */
    method EditDescription(text: string)
      requires Valid()
      modifies this`description
      ensures Valid()
      ensures description == if isUploading then old(description) else text
    {
      if !isUploading {
        description := text;
      }
    }

    /** The image picker's answer: a picked photo replaces the previous one. */
    method PickAttachment(uri: Option<string>)
      requires Valid()
      modifies this`attachmentUri
      ensures Valid()
      ensures attachmentUri == if uri.Some? then uri else old(attachmentUri)
    {
      if uri.Some? {
        attachmentUri := uri;
      }
    }

    /** "Post" is enabled exactly when not uploading, title, location and
        description are not blank and a category is chosen. */
    predicate CanSubmit()
      reads this
    {
      !isUploading && IsNotBlank(title) && itemCategory != CategoryPlaceholder
      && IsNotBlank(location) && IsNotBlank(description)
    }

    /** Pressing "Post": when enabled, uploading starts and any earlier error
        is cleared. */
    method Submit() returns (started: bool)
      requires Valid()
      modifies this`isUploading, this`errorMessage
      ensures Valid()
      ensures started == old(CanSubmit())
      ensures started ==> isUploading && errorMessage == None
      ensures !started ==> isUploading == old(isUploading) && errorMessage == old(errorMessage)
    {
      started := CanSubmit();
      if started {
        isUploading := true;
        errorMessage := None;
      }
    }

    /** The end of a submission at clock time `now`, with `dateText` the
        formatted `selectedDate`: when everything was stored the new
        "Lost & Found" post by "You" is handed to the feed, without an image
        link unless a photo was chosen and read; otherwise the failure is
        reported. Uploading ends either way. */
    method CompleteSubmit(outcome: SubmitOutcome, now: nat, dateText: string) returns (posted: Option<Post>)
      requires Valid()
      modifies this`isUploading, this`errorMessage
      ensures Valid() && !isUploading
      ensures outcome.Stored? ==>
                errorMessage == old(errorMessage)
                && posted == Some(NewPost(now, "You", "Lost & Found",
                                          PostContent(postType, title, itemCategory, location, dateText, description),
                                          AttachmentUrl(attachmentUri.Some?, outcome.bytesRead, outcome.publicUrl)))
      ensures outcome.SubmitThrew? ==>
                posted == None && errorMessage == Some("Failed to submit post: " + Template(outcome.message))
    {
      match outcome {
        case Stored(bytesRead, publicUrl) =>
          var imageUrl := AttachmentUrl(attachmentUri.Some?, bytesRead, publicUrl);
          var content := PostContent(postType, title, itemCategory, location, dateText, description);
          posted := Some(NewPost(now, "You", "Lost & Found", content, imageUrl));
        case SubmitThrew(m) =>
          posted := None;
          errorMessage := Some("Failed to submit post: " + Template(m));
      }
      isUploading := false;
    }
  }
}
