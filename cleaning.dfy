/**
 * The cleaning stage: each raw Udemy or Coursera row is mapped to the unified schema,
 * duplicates are dropped, and the result must have every title and text present.
 */
module Cleaning {
  import opened Wrappers
  import opened Text
  import opened Duplicates
  import opened Rows

  /** The twelve columns selected from the raw Udemy table, under their raw names. */
  datatype UdemyRaw = UdemyRaw(
    courseId: Option<string>,
    courseTitle: Option<string>,
    url: Option<string>,
    isPaid: Option<string>,
    price: Option<string>,
    numSubscribers: Option<string>,
    numReviews: Option<string>,
    numLectures: Option<string>,
    level: Option<string>,
    contentDuration: Option<string>,
    publishedTimestamp: Option<string>,
    subject: Option<string>)

  /** The seven columns read from the raw Coursera table. */
  datatype CourseraRaw = CourseraRaw(
    courseName: Option<string>,
    university: Option<string>,
    difficultyLevel: Option<string>,
    courseRating: Option<string>,
    courseUrl: Option<string>,
    courseDescription: Option<string>,
    skills: Option<string>)

  // ---------------------------------------------------------------------------------------
  // Column names

  /** The raw Udemy columns that are kept, in order. */
  const UdemySelection: seq<string> := [
    "course_id", "course_title", "url", "is_paid", "price",
    "num_subscribers", "num_reviews", "num_lectures",
    "level", "content_duration", "published_timestamp", "subject"
  ]

  /** The Udemy renaming table. */
  const UdemyRenames: map<string, string> := map[
    "course_title" := "title",
    "content_duration" := "duration",
    "num_subscribers" := "subscribers",
    "num_reviews" := "reviews",
    "num_lectures" := "lectures"
  ]

  /** The new name of a kept Udemy column: renamed if the table lists it, else unchanged. */
  function Renamed(column: string): string {
    if column in UdemyRenames then UdemyRenames[column] else column
  }

  /** The header of the cleaned Udemy frame: renamed selection, then the added columns. */
  function UdemyColumns(): seq<string> {
    seq(|UdemySelection|, i requires 0 <= i < |UdemySelection| => Renamed(UdemySelection[i]))
      + ["provider", "rating", "description", "skills", "text_for_tfidf"]
  }

  /** The raw Coursera columns that are read, in order. */
  const CourseraSource: seq<string> := [
    "Course Name", "University", "Difficulty Level", "Course Rating",
    "Course URL", "Course Description", "Skills"
  ]

  /** The cleaned Coursera columns taken from the raw ones: `CourseraSource[k]` becomes `CourseraMapped[k]`. */
  const CourseraMapped: seq<string> := ["title", "provider", "level", "rating", "url", "description", "skills"]

  /** The placeholder columns added to the Coursera frame, in order. */
  const CourseraPlaceholders: seq<string> :=
    ["price", "is_paid", "subscribers", "reviews", "lectures", "duration", "published_timestamp", "subject"]

  /** The header of the cleaned Coursera frame: mapped columns, placeholders, text. */
  const CourseraColumns: seq<string> := CourseraMapped + CourseraPlaceholders + ["text_for_tfidf"]

  /** The renaming touches exactly the five listed columns. */
  lemma RenamesListed()
    ensures forall c :: c in UdemySelection ==>
      (Renamed(c) != c <==> c in {"course_title", "content_duration", "num_subscribers", "num_reviews", "num_lectures"})
  {
  }

  /** The cleaned Udemy header is the unified schema, column for column and in order. */
  lemma UdemyColumnsValue()
    ensures UdemyColumns() == Columns
  {
  }

  /**
   * The two cleaned headers name the same columns except `course_id`, which only Udemy
   * has, so concatenating the frames leaves `course_id` missing in the Coursera rows.
   */
  lemma ColumnsAlign()
    ensures forall c :: c in UdemyColumns() <==> c in CourseraColumns || c == "course_id"
    ensures "course_id" !in CourseraColumns
  {
    UdemyColumnsValue();
  }

  // ---------------------------------------------------------------------------------------
  // Udemy

  /** The cell of a raw Udemy row in the kept column named `column`. */
  function UdemyRawCell(raw: UdemyRaw, column: string): Option<string>
    requires column in UdemySelection
  {
    if column == "course_id" then raw.courseId
    else if column == "course_title" then raw.courseTitle
    else if column == "url" then raw.url
    else if column == "is_paid" then raw.isPaid
    else if column == "price" then raw.price
    else if column == "num_subscribers" then raw.numSubscribers
    else if column == "num_reviews" then raw.numReviews
    else if column == "num_lectures" then raw.numLectures
    else if column == "level" then raw.level
    else if column == "content_duration" then raw.contentDuration
    else if column == "published_timestamp" then raw.publishedTimestamp
    else raw.subject
  }

  /** The kept column `column` reaches the cleaned row under its new name, unchanged. */
  ghost predicate KeptCell(raw: UdemyRaw, column: string)
    requires column in UdemySelection
  {
    Renamed(column) in Columns && Cell(UdemyRow(raw), Renamed(column)) == UdemyRawCell(raw, column)
  }

  /**
   * Selecting, renaming and adding columns, cell by cell: every kept raw column reaches the
   * cleaned row under its new name with its value unchanged, and the added columns hold
   * "Udemy", nothing, nothing, the subject and the text built from title and subject.
   */
  lemma UdemyRowCells(raw: UdemyRaw)
    ensures forall c :: c in UdemySelection ==> KeptCell(raw, c)
    ensures Cell(UdemyRow(raw), "provider") == Some("Udemy")
    ensures Cell(UdemyRow(raw), "rating").None? && Cell(UdemyRow(raw), "description").None?
    ensures Cell(UdemyRow(raw), "skills") == Cell(UdemyRow(raw), "subject")
    ensures Cell(UdemyRow(raw), "text_for_tfidf")
      == Some(UdemyText(Cell(UdemyRow(raw), "title"), Cell(UdemyRow(raw), "subject")))
  {
    KeptCells0(raw);
    KeptCells1(raw);
    KeptCells2(raw);
    KeptCells3(raw);
    forall c | c in UdemySelection ensures KeptCell(raw, c) {
      var k :| 0 <= k < |UdemySelection| && UdemySelection[k] == c;
    }
    assert Columns[1] == "title" && Columns[11] == "subject" && Columns[12] == "provider";
    assert Columns[13] == "rating" && Columns[14] == "description";
    assert Columns[15] == "skills" && Columns[16] == "text_for_tfidf";
  }

  /** The kept columns 0 to 2 of the selection. */
  lemma KeptCells0(raw: UdemyRaw)
    ensures forall k :: 0 <= k < 3 ==> KeptCell(raw, UdemySelection[k])
  {
    assert UdemySelection[0] == "course_id" && Renamed("course_id") == "course_id" && Columns[0] == "course_id";
    assert UdemySelection[1] == "course_title" && Renamed("course_title") == "title" && Columns[1] == "title";
    assert UdemySelection[2] == "url" && Renamed("url") == "url" && Columns[2] == "url";
  }

  /** The kept columns 3 to 5 of the selection. */
  lemma KeptCells1(raw: UdemyRaw)
    ensures forall k :: 3 <= k < 6 ==> KeptCell(raw, UdemySelection[k])
  {
    assert UdemySelection[3] == "is_paid" && Renamed("is_paid") == "is_paid" && Columns[3] == "is_paid";
    assert UdemySelection[4] == "price" && Renamed("price") == "price" && Columns[4] == "price";
    assert UdemySelection[5] == "num_subscribers" && Renamed("num_subscribers") == "subscribers" && Columns[5] == "subscribers";
  }

  /** The kept columns 6 to 8 of the selection. */
  lemma KeptCells2(raw: UdemyRaw)
    ensures forall k :: 6 <= k < 9 ==> KeptCell(raw, UdemySelection[k])
  {
    assert UdemySelection[6] == "num_reviews" && Renamed("num_reviews") == "reviews" && Columns[6] == "reviews";
    assert UdemySelection[7] == "num_lectures" && Renamed("num_lectures") == "lectures" && Columns[7] == "lectures";
    assert UdemySelection[8] == "level" && Renamed("level") == "level" && Columns[8] == "level";
  }

  /** The kept columns 9 to 11 of the selection. */
  lemma KeptCells3(raw: UdemyRaw)
    ensures forall k :: 9 <= k < 12 ==> KeptCell(raw, UdemySelection[k])
  {
    assert UdemySelection[9] == "content_duration" && Renamed("content_duration") == "duration" && Columns[9] == "duration";
    assert UdemySelection[10] == "published_timestamp" && Renamed("published_timestamp") == "published_timestamp" && Columns[10] == "published_timestamp";
    assert UdemySelection[11] == "subject" && Renamed("subject") == "subject" && Columns[11] == "subject";
  }


  /** The Udemy `text_for_tfidf`: title and subject, missing ones as "", lowercased. */
  function UdemyText(title: Option<string>, subject: Option<string>): string {
    Lower(OrEmpty(title) + " " + OrEmpty(subject))
  }

  /** One raw Udemy row in the unified schema. */
  function UdemyRow(raw: UdemyRaw): Row {
    Row(
      courseId := raw.courseId,
      title := raw.courseTitle,
      url := raw.url,
      isPaid := raw.isPaid,
      price := raw.price,
      subscribers := raw.numSubscribers,
      reviews := raw.numReviews,
      lectures := raw.numLectures,
      level := raw.level,
      duration := raw.contentDuration,
      publishedTimestamp := raw.publishedTimestamp,
      subject := raw.subject,
      provider := Some("Udemy"),
      rating := None,
      description := None,
      skills := raw.subject,
      textForTfidf := Some(UdemyText(raw.courseTitle, raw.subject)))
  }

  function UdemyRows(raw: seq<UdemyRaw>): seq<Row> {
    seq(|raw|, i requires 0 <= i < |raw| => UdemyRow(raw[i]))
  }

  /** The Udemy text is lowercase, and its tokens are the title's followed by the subject's. */
  lemma UdemyTextTokens(title: Option<string>, subject: Option<string>)
    ensures IsLower(UdemyText(title, subject))
    ensures Split(UdemyText(title, subject)) == Split(Lower(OrEmpty(title))) + Split(Lower(OrEmpty(subject)))
  {
    var t, s := OrEmpty(title), OrEmpty(subject);
    LowerIsLower(t + " " + s);
    LowerConcat(t + " ", s);
    LowerConcat(t, " ");
    assert Lower(" ") == " ";
    SplitAroundSpace(Lower(t), Lower(s));
  }

  /**
   * Udemy cleaning: the mapped rows with duplicates dropped, kept only when every title is
   * present. The text is never missing, so the only possible failure is a missing title.
   */
  method CleanUdemy(raw: seq<UdemyRaw>) returns (res: Result<seq<Row>, Failure>)
    ensures res.Ok? <==> forall i :: 0 <= i < |raw| ==> raw[i].courseTitle.Some?
    ensures res.Err? ==> res.error == MissingTitle
    ensures res.Ok? ==> res.value == Dedup(UdemyRows(raw))
    ensures res.Ok? ==> NoDuplicates(res.value)
    ensures res.Ok? ==> forall r :: r in res.value ==>
      (exists i :: 0 <= i < |raw| && r == UdemyRow(raw[i]))
      && r.provider == Some("Udemy") && r.rating.None? && r.description.None?
      && r.skills == r.subject && r.title.Some? && r.textForTfidf.Some?
    ensures res.Ok? ==> forall i :: 0 <= i < |raw| ==> UdemyRow(raw[i]) in res.value
  {
    var frame := new Frame(UdemyRows(raw));
    frame.DropDuplicates();
    var failure := frame.Validate();
    CheckDedup(UdemyRows(raw));
    UdemyRowsChecked(raw);
    if failure.Some? {
      return Err(failure.value);
    }
    UdemyRowsShape(raw);
    return Ok(frame.rows);
  }

  /** The mapped Udemy rows fail only on a missing title, exactly when a raw title is missing. */
  lemma UdemyRowsChecked(raw: seq<UdemyRaw>)
    ensures Check(UdemyRows(raw)) ==
      if forall i :: 0 <= i < |raw| ==> raw[i].courseTitle.Some? then None else Some(MissingTitle)
  {
    var rows := UdemyRows(raw);
    if exists i :: 0 <= i < |raw| && raw[i].courseTitle.None? {
      var i :| 0 <= i < |raw| && raw[i].courseTitle.None?;
      assert rows[i] in rows;
    }
  }

  /** Every mapped Udemy row comes from a raw row and carries the Udemy constants. */
  lemma UdemyRowsShape(raw: seq<UdemyRaw>)
    ensures forall r :: r in UdemyRows(raw) ==>
      (exists i :: 0 <= i < |raw| && r == UdemyRow(raw[i]))
      && r.provider == Some("Udemy") && r.rating.None? && r.description.None?
      && r.skills == r.subject && r.textForTfidf.Some?
    ensures forall i :: 0 <= i < |raw| ==> UdemyRow(raw[i]) in UdemyRows(raw)
  {
    var rows := UdemyRows(raw);
    forall i | 0 <= i < |raw| ensures UdemyRow(raw[i]) in rows {
      assert rows[i] == UdemyRow(raw[i]);
    }
  }

  // ---------------------------------------------------------------------------------------
  // Coursera

  /** `str(x).split(",")[0]`: the text before the first comma, untrimmed. */
  function FirstSkill(skills: string): (r: string)
    ensures |r| <= |skills| && r == skills[..|r|]
    ensures ',' !in r
    ensures |r| < |skills| ==> skills[|r|] == ','
  {
    if skills == [] || skills[0] == ',' then []
    else [skills[0]] + FirstSkill(skills[1..])
  }

  /** The Coursera `subject`: the first skill, or missing when `skills` is missing. */
  function CourseraSubject(skills: Option<string>): Option<string> {
    match skills
    case None => None
    case Some(s) => Some(FirstSkill(s))
  }

  /** The Coursera `text_for_tfidf`: title, description, skills and subject, lowercased. */
  function CourseraText(title: Option<string>, description: Option<string>,
                        skills: Option<string>, subject: Option<string>): string
  {
    Lower(OrEmpty(title) + " " + OrEmpty(description) + " " + OrEmpty(skills) + " " + OrEmpty(subject))
  }

  /** The cell of a raw Coursera row in the column named `column`. */
  function CourseraRawCell(raw: CourseraRaw, column: string): Option<string>
    requires column in CourseraSource
  {
    if column == "Course Name" then raw.courseName
    else if column == "University" then raw.university
    else if column == "Difficulty Level" then raw.difficultyLevel
    else if column == "Course Rating" then raw.courseRating
    else if column == "Course URL" then raw.courseUrl
    else if column == "Course Description" then raw.courseDescription
    else raw.skills
  }

  /** One raw Coursera row in the unified schema; the table has no `course_id` column. */
  function CourseraRow(raw: CourseraRaw): Row {
    var subject := CourseraSubject(raw.skills);
    Row(
      courseId := None,
      title := raw.courseName,
      url := raw.courseUrl,
      isPaid := None,
      price := None,
      subscribers := None,
      reviews := None,
      lectures := None,
      level := raw.difficultyLevel,
      duration := None,
      publishedTimestamp := None,
      subject := subject,
      provider := raw.university,
      rating := raw.courseRating,
      description := raw.courseDescription,
      skills := raw.skills,
      textForTfidf := Some(CourseraText(raw.courseName, raw.courseDescription, raw.skills, subject)))
  }

  function CourseraRows(raw: seq<CourseraRaw>): seq<Row> {
    seq(|raw|, i requires 0 <= i < |raw| => CourseraRow(raw[i]))
  }

  /** The mapped column `k` of the cleaned row holds the raw column `k`, unchanged. */
  ghost predicate MappedCell(raw: CourseraRaw, k: nat)
    requires k < |CourseraMapped| && |CourseraMapped| == |CourseraSource|
  {
    CourseraMapped[k] in Columns
    && Cell(CourseraRow(raw), CourseraMapped[k]) == CourseraRawCell(raw, CourseraSource[k])
  }

  /** The placeholder column `k` of the cleaned row is missing, except the derived `subject`. */
  ghost predicate PlaceholderCell(raw: CourseraRaw, k: nat)
    requires k < |CourseraPlaceholders|
  {
    CourseraPlaceholders[k] in Columns
    && (CourseraPlaceholders[k] != "subject" ==> Cell(CourseraRow(raw), CourseraPlaceholders[k]).None?)
  }

  /**
   * Building the Coursera frame, cell by cell: each read column reaches the cleaned row
   * under its new name with its value unchanged, every placeholder but `subject` is missing,
   * `subject` is the first skill, `course_id` is missing, and the text is built from title,
   * description, skills and subject.
   */
  lemma CourseraRowCells(raw: CourseraRaw)
    ensures |CourseraMapped| == |CourseraSource|
    ensures forall k :: 0 <= k < |CourseraMapped| ==> MappedCell(raw, k)
    ensures forall k :: 0 <= k < |CourseraPlaceholders| ==> PlaceholderCell(raw, k)
    ensures Cell(CourseraRow(raw), "subject") == CourseraSubject(Cell(CourseraRow(raw), "skills"))
    ensures Cell(CourseraRow(raw), "course_id").None?
    ensures Cell(CourseraRow(raw), "text_for_tfidf") == Some(CourseraText(
      Cell(CourseraRow(raw), "title"), Cell(CourseraRow(raw), "description"),
      Cell(CourseraRow(raw), "skills"), Cell(CourseraRow(raw), "subject")))
  {
    MappedCells0(raw);
    MappedCells1(raw);
    PlaceholderCells0(raw);
    PlaceholderCells1(raw);
    assert Columns[0] == "course_id" && Columns[1] == "title" && Columns[11] == "subject";
    assert Columns[14] == "description" && Columns[15] == "skills" && Columns[16] == "text_for_tfidf";
  }

  /** The read columns 0 to 3. */
  lemma MappedCells0(raw: CourseraRaw)
    ensures |CourseraMapped| == |CourseraSource|
    ensures forall k :: 0 <= k < 4 ==> MappedCell(raw, k)
  {
    assert CourseraSource[0] == "Course Name" && CourseraMapped[0] == "title" && Columns[1] == "title";
    assert CourseraSource[1] == "University" && CourseraMapped[1] == "provider" && Columns[12] == "provider";
    assert CourseraSource[2] == "Difficulty Level" && CourseraMapped[2] == "level" && Columns[8] == "level";
    assert CourseraSource[3] == "Course Rating" && CourseraMapped[3] == "rating" && Columns[13] == "rating";
  }

  /** The read columns 4 to 6. */
  lemma MappedCells1(raw: CourseraRaw)
    ensures |CourseraMapped| == |CourseraSource|
    ensures forall k :: 4 <= k < 7 ==> MappedCell(raw, k)
  {
    assert CourseraSource[4] == "Course URL" && CourseraMapped[4] == "url" && Columns[2] == "url";
    assert CourseraSource[5] == "Course Description" && CourseraMapped[5] == "description" && Columns[14] == "description";
    assert CourseraSource[6] == "Skills" && CourseraMapped[6] == "skills" && Columns[15] == "skills";
  }

  /** The placeholders 0 to 3. */
  lemma PlaceholderCells0(raw: CourseraRaw)
    ensures forall k :: 0 <= k < 4 ==> PlaceholderCell(raw, k)
  {
    assert CourseraPlaceholders[0] == "price" && Columns[4] == "price";
    assert CourseraPlaceholders[1] == "is_paid" && Columns[3] == "is_paid";
    assert CourseraPlaceholders[2] == "subscribers" && Columns[5] == "subscribers";
    assert CourseraPlaceholders[3] == "reviews" && Columns[6] == "reviews";
  }

  /** The placeholders 4 to 7. */
  lemma PlaceholderCells1(raw: CourseraRaw)
    ensures forall k :: 4 <= k < 8 ==> PlaceholderCell(raw, k)
  {
    assert CourseraPlaceholders[4] == "lectures" && Columns[7] == "lectures";
    assert CourseraPlaceholders[5] == "duration" && Columns[9] == "duration";
    assert CourseraPlaceholders[6] == "published_timestamp" && Columns[10] == "published_timestamp";
    assert CourseraPlaceholders[7] == "subject" && Columns[11] == "subject";
  }

  /** The Coursera text's tokens are those of its four parts, in order. */
  lemma CourseraTextTokens(title: Option<string>, description: Option<string>,
                           skills: Option<string>, subject: Option<string>)
    ensures IsLower(CourseraText(title, description, skills, subject))
    ensures Split(CourseraText(title, description, skills, subject))
      == Split(Lower(OrEmpty(title))) + Split(Lower(OrEmpty(description)))
         + Split(Lower(OrEmpty(skills))) + Split(Lower(OrEmpty(subject)))
  {
    var t, d, k, s := OrEmpty(title), OrEmpty(description), OrEmpty(skills), OrEmpty(subject);
    LowerIsLower(t + " " + d + " " + k + " " + s);
    LowerSpaced(t + " " + d + " " + k, s);
    LowerSpaced(t + " " + d, k);
    LowerSpaced(t, d);
    SplitAroundSpace(Lower(t + " " + d + " " + k), Lower(s));
    SplitAroundSpace(Lower(t + " " + d), Lower(k));
    SplitAroundSpace(Lower(t), Lower(d));
  }

  lemma LowerSpaced(a: string, b: string)
    ensures Lower(a + " " + b) == Lower(a) + " " + Lower(b)
  {
    LowerConcat(a + " ", b);
    LowerConcat(a, " ");
    assert Lower(" ") == " ";
  }

  /**
   * Coursera cleaning: the mapped rows with duplicates dropped, kept only when every course
   * name is present. The placeholder columns are missing in every cleaned row.
   */
  method CleanCoursera(raw: seq<CourseraRaw>) returns (res: Result<seq<Row>, Failure>)
    ensures res.Ok? <==> forall i :: 0 <= i < |raw| ==> raw[i].courseName.Some?
    ensures res.Err? ==> res.error == MissingTitle
    ensures res.Ok? ==> res.value == Dedup(CourseraRows(raw))
    ensures res.Ok? ==> NoDuplicates(res.value)
    ensures res.Ok? ==> forall r :: r in res.value ==>
      (exists i :: 0 <= i < |raw| && r == CourseraRow(raw[i]))
      && r.courseId.None? && r.price.None? && r.isPaid.None? && r.subscribers.None?
      && r.reviews.None? && r.lectures.None? && r.duration.None? && r.publishedTimestamp.None?
      && r.subject == CourseraSubject(r.skills) && r.title.Some? && r.textForTfidf.Some?
    ensures res.Ok? ==> forall i :: 0 <= i < |raw| ==> CourseraRow(raw[i]) in res.value
  {
    var frame := new Frame(CourseraRows(raw));
    frame.DropDuplicates();
    var failure := frame.Validate();
    CheckDedup(CourseraRows(raw));
    CourseraRowsChecked(raw);
    if failure.Some? {
      return Err(failure.value);
    }
    CourseraRowsShape(raw);
    return Ok(frame.rows);
  }

  /** The mapped Coursera rows fail only on a missing title, exactly when a course name is missing. */
  lemma CourseraRowsChecked(raw: seq<CourseraRaw>)
    ensures Check(CourseraRows(raw)) ==
      if forall i :: 0 <= i < |raw| ==> raw[i].courseName.Some? then None else Some(MissingTitle)
  {
    var rows := CourseraRows(raw);
    if exists i :: 0 <= i < |raw| && raw[i].courseName.None? {
      var i :| 0 <= i < |raw| && raw[i].courseName.None?;
      assert rows[i] in rows;
    }
  }

  /** Every mapped Coursera row comes from a raw row and has the placeholders missing. */
  lemma CourseraRowsShape(raw: seq<CourseraRaw>)
    ensures forall r :: r in CourseraRows(raw) ==>
      (exists i :: 0 <= i < |raw| && r == CourseraRow(raw[i]))
      && r.courseId.None? && r.price.None? && r.isPaid.None? && r.subscribers.None?
      && r.reviews.None? && r.lectures.None? && r.duration.None? && r.publishedTimestamp.None?
      && r.subject == CourseraSubject(r.skills) && r.textForTfidf.Some?
    ensures forall i :: 0 <= i < |raw| ==> CourseraRow(raw[i]) in CourseraRows(raw)
  {
    var rows := CourseraRows(raw);
    forall i | 0 <= i < |raw| ensures CourseraRow(raw[i]) in rows {
      assert rows[i] == CourseraRow(raw[i]);
    }
  }
}
