/** The safety report form: the anonymity choice and the author name it
    decides, the submit guard, the report text and the post it creates. Date
    formatting, image reading, upload and the database write are inputs or
    outcomes passed in by the caller. */
module SafetyReportDialog {
  import opened Wrappers
  import opened Numbers
  import opened Text
  import opened Posts

  const ReportTypes: seq<string> := ["Anonymous", "Identified"]

  const IncidentPlaceholder: string := "Select Incident Type"

  const IncidentTypes: seq<string> := [
    "Theft",
    "Suspicious Activity",
    "Harassment",
    "Medical Emergency",
    "Fire/Hazard",
    "Wildlife Encounter",
    "Vehicle Incident",
    "Lost & Found",
    "Other"]

  /** The author shown on the report: "Anonymous User" exactly for an
      anonymous report, "You" otherwise. */
  function UserNameFor(reportType: string): (r: string)
    ensures r == "Anonymous User" <==> reportType == "Anonymous"
    ensures r != "Anonymous User" ==> r == "You"
  {
    if reportType == "Anonymous" then "Anonymous User" else "You"
  }

  function ReportLines(incidentType: string, location: string, dateTimeText: string,
                       description: string): seq<string>
  {
    ["SAFETY REPORT", "Incident: " + incidentType, "Location: " + location,
     "Date/Time: " + dateTimeText, "", description]
  }

  /** The post body: one newline-terminated line per entry of `ReportLines`;
      `dateTimeText` is the chosen time in the locale's
      "MMM dd, yyyy 'at' hh:mm a" format. The report type is not part of it. */
  function ReportContent(incidentType: string, location: string, dateTimeText: string,
                         description: string): string
  {
    Lines(ReportLines(incidentType, location, dateTimeText, description))
  }

  /** The body ends in a line feed and, when no field holds a line feed of its
      own, splits back into the heading, the three labelled fields, a blank line
      and the description. */
  lemma ReportContentLines(incidentType: string, location: string, dateTimeText: string,
                           description: string)
    ensures var c := ReportContent(incidentType, location, dateTimeText, description);
            c != "" && c[|c| - 1] == '\n'
    ensures '\n' !in incidentType && '\n' !in location && '\n' !in dateTimeText && '\n' !in description
            ==> SplitLines(ReportContent(incidentType, location, dateTimeText, description))
                == ["SAFETY REPORT", "Incident: " + incidentType, "Location: " + location,
                    "Date/Time: " + dateTimeText, "", description]
  {
    var ls := ReportLines(incidentType, location, dateTimeText, description);
    LinesLength(ls);
    if '\n' !in incidentType && '\n' !in location && '\n' !in dateTimeText && '\n' !in description {
      assert SingleLines(ls);
      SplitLinesOfLines(ls);
    }
  }

  class SafetyReportForm {
    /** "Anonymous" or "Identified". */
    var reportType: string
    var incidentType: string
    /** The chosen date and time, in milliseconds since the epoch. */
    var selectedDate: int
    var location: string
    var description: string
    var attachmentUri: Option<string>
    var isUploading: bool
    var errorMessage: Option<string>

    /** The report type is always one of the two offered, and the incident the
        placeholder or one of the listed ones. */
    ghost predicate Valid()
      reads this
    {
      reportType in ReportTypes
      && (incidentType == IncidentPlaceholder || incidentType in IncidentTypes)
    }

    /** A new form is an anonymous report dated now. */
    constructor (now: int)
      ensures Valid()
      ensures reportType == "Anonymous" && incidentType == IncidentPlaceholder && selectedDate == now
      ensures location == "" && description == ""
      ensures attachmentUri == None && !isUploading && errorMessage == None
    {
      reportType := "Anonymous";
      incidentType := IncidentPlaceholder;
      selectedDate := now;
      location := "";
      description := "";
      attachmentUri := None;
      isUploading := false;
      errorMessage := None;
    }

    /** Choosing "Anonymous" or "Identified". */
    method SelectReportType(t: string)
      requires Valid() && t in ReportTypes
      modifies this`reportType
      ensures Valid() && reportType == t
    {
      reportType := t;
    }

    /** Choosing one of the listed incident types; the guard's incident
        condition then holds. */
    method SelectIncidentType(t: string)
      requires Valid() && t in IncidentTypes
      modifies this`incidentType
      ensures Valid() && incidentType == t
      ensures incidentType != IncidentPlaceholder
    {
      incidentType := t;
    }

    /** The date picker's "OK": a selected day replaces the date; none keeps it. */
    method ConfirmDate(millis: Option<int>)
      requires Valid()
      modifies this`selectedDate
      ensures Valid()
      ensures selectedDate == if millis.Some? then millis.value else old(selectedDate)
    {
      if millis.Some? {
        selectedDate := millis.value;
      }
    }

    /** The location field, disabled while uploading. */
    method EditLocation(text: string)
      requires Valid()
      modifies this`location
      ensures Valid()
      ensures location == if isUploading then old(location) else text
    {
      if !isUploading {
        location := text;
      }
    }

    /** The description field, disabled while uploading. */
    method EditDescription(text: string)
      requires Valid()
      modifies this`description
      ensures Valid()
      ensures description == if isUploading then old(description) else text
    {
      if !isUploading {
        description := text;
      }
    }

    /** The picker's answer: a picked photo or file replaces the previous one. */
    method PickAttachment(uri: Option<string>)
      requires Valid()
      modifies this`attachmentUri
      ensures Valid()
      ensures attachmentUri == if uri.Some? then uri else old(attachmentUri)
    {
      if uri.Some? {
        attachmentUri := uri;
      }
    }

    /** "Submit Report" is enabled exactly when not uploading, an incident type
        is chosen and location and description are not blank; no title is asked for. */
    predicate CanSubmit()
      reads this
    {
      !isUploading && incidentType != IncidentPlaceholder
      && IsNotBlank(location) && IsNotBlank(description)
    }

    /** Pressing "Submit Report": when enabled, uploading starts and any
        earlier error is cleared. */
    method Submit() returns (started: bool)
      requires Valid()
      modifies this`isUploading, this`errorMessage
      ensures Valid()
      ensures started == old(CanSubmit())
      ensures started ==> isUploading && errorMessage == None
      ensures !started ==> isUploading == old(isUploading) && errorMessage == old(errorMessage)
    {
      started := CanSubmit();
      if started {
        isUploading := true;
        errorMessage := None;
      }
    }

    /** The end of a submission at clock time `now`, with `dateTimeText` the
        formatted `selectedDate`: when everything was stored the new "Safety"
        post is handed to the feed under the name the report type decides;
        otherwise the failure is reported. Uploading ends either way. */
    method CompleteSubmit(outcome: SubmitOutcome, now: nat, dateTimeText: string) returns (posted: Option<Post>)
      requires Valid()
      modifies this`isUploading, this`errorMessage
      ensures Valid() && !isUploading
      ensures outcome.Stored? ==>
                errorMessage == old(errorMessage)
                && posted == Some(NewPost(now, UserNameFor(reportType), "Safety",
                                          ReportContent(incidentType, location, dateTimeText, description),
                                          AttachmentUrl(attachmentUri.Some?, outcome.bytesRead, outcome.publicUrl)))
      ensures outcome.SubmitThrew? ==>
                posted == None && errorMessage == Some("Failed to submit report: " + Template(outcome.message))
    {
      match outcome {
        case Stored(bytesRead, publicUrl) =>
          var imageUrl := AttachmentUrl(attachmentUri.Some?, bytesRead, publicUrl);
          var content := ReportContent(incidentType, location, dateTimeText, description);
          posted := Some(NewPost(now, UserNameFor(reportType), "Safety", content, imageUrl));
        case SubmitThrew(m) =>
          posted := None;
          errorMessage := Some("Failed to submit report: " + Template(m));
      }
      isUploading := false;
    }
  }
}
