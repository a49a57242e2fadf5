/**
 * The content-management admin page: the record shapes it edits, the
 * per-kind templates and form fields, the comma-separated tag input, the
 * storage path of an uploaded image, the shaping of the analytics queries,
 * the operations on the backend tables, and the edit-session state machine
 * (add/edit modal, field edits, save, delete confirmation, image upload).
 */
module Admin {
  import opened Wrappers
  import opened Text

  // =====================================================================
  // Data model
  // =====================================================================

  /**
   * A row the admin lists. Project, Technology and Experience are the three
   * editable kinds, and a draft is one of them; Message is a row of the
   * read-only inbox, which can only be deleted. `id` is absent on a draft
   * the backend has not stored yet (the backend assigns it on insert).
   */
  datatype Record =
    | Project(id: Option<string>, title: string, description: string, tags: seq<string>,
              githubUrl: string, liveUrl: string, imageUrl: string, span: string, orderIndex: int)
    | Technology(id: Option<string>, name: string, category: string, orderIndex: int)
    | Experience(id: Option<string>, year: string, title: string, company: string,
                 description: string, iconType: string, orderIndex: int)
    | Message(id: Option<string>, name: string, email: string, subject: string,
              message: string, createdAt: int)

  /** The dashboard's tabs. */
  datatype Tab = AnalyticsTab | ProjectsTab | TechTab | CvTab | MessagesTab

  /** The backend tables the admin reads and writes. */
  datatype Table = ProjectsTable | TechnologiesTable | ExperiencesTable | MessagesTable


  /** The table whose rows a tab lists (the analytics tab lists none). */
  function ListTable(tab: Tab): Option<Table>
  {
    match tab
    case ProjectsTab => Some(ProjectsTable)
    case TechTab => Some(TechnologiesTable)
    case CvTab => Some(ExperiencesTable)
    case MessagesTab => Some(MessagesTable)
    case AnalyticsTab => None
  }

  /** The table the save button writes to: projects, technologies, and
      experiences for every other tab. */
  function SaveTable(tab: Tab): (r: Table)
    ensures r != MessagesTable
    ensures FormFields(tab) != {} ==> ListTable(tab) == Some(r)
  {
    match tab
    case ProjectsTab => ProjectsTable
    case TechTab => TechnologiesTable
    case _ => ExperiencesTable
  }

  /** The modal's mode; no mode (`None`) means the modal is closed. */
  datatype Mode = Add | Edit

  /** A delete awaiting confirmation. */
  datatype DeleteRequest = DeleteRequest(table: Table, id: string)

  /** A row of `page_views`; `createdAt` is its timestamp. */
  datatype PageView = PageView(id: string, pagePath: string, userAgent: string,
                               referrer: Option<string>, createdAt: int)

  /** The two columns the recent-activity query selects. */
  datatype RecentView = RecentView(pagePath: string, createdAt: int)

  datatype Analytics = Analytics(totalViews: int, uniqueVisitors: int, recentViews: seq<RecentView>)

  // =====================================================================
  // Resource registry: form fields and per-kind templates
  // =====================================================================

  /** The inputs of the three forms. */
  datatype Field =
    | Title | Description | Tags | GithubUrl | LiveUrl | ImageUrl | Span     // projects
    | Name | Category                                                        // technologies
    | Year | Company | IconType                                              // experiences (with Title, Description)

  /** What a form field holds: text, or the list of tags. */
  datatype FieldValue = Text(text: string) | TagList(tags: seq<string>)

  /** The fields each tab's form renders. */
  function FormFields(tab: Tab): set<Field>
  {
    match tab
    case ProjectsTab => {Title, Description, Tags, GithubUrl, LiveUrl, ImageUrl, Span}
    case TechTab => {Name, Category}
    case CvTab => {Year, Title, Company, Description, IconType}
    case _ => {}
  }

  /** The record kind a tab's form edits. */
  predicate FormFor(tab: Tab, d: Record)
  {
    match tab
    case ProjectsTab => d.Project?
    case TechTab => d.Technology?
    case CvTab => d.Experience?
    case _ => false
  }

  /** Field `f` of `d`, or `None` when the kind of `d` has no such field. */
  function Get(d: Record, f: Field): Option<FieldValue>
  {
    match d
    case Project(_, title, description, tags, githubUrl, liveUrl, imageUrl, span, _) =>
      (match f
       case Title => Some(Text(title))
       case Description => Some(Text(description))
       case Tags => Some(TagList(tags))
       case GithubUrl => Some(Text(githubUrl))
       case LiveUrl => Some(Text(liveUrl))
       case ImageUrl => Some(Text(imageUrl))
       case Span => Some(Text(span))
       case _ => None)
    case Technology(_, name, category, _) =>
      (match f
       case Name => Some(Text(name))
       case Category => Some(Text(category))
       case _ => None)
    case Experience(_, year, title, company, description, iconType, _) =>
      (match f
       case Year => Some(Text(year))
       case Title => Some(Text(title))
       case Company => Some(Text(company))
       case Description => Some(Text(description))
       case IconType => Some(Text(iconType))
       case _ => None)
    case Message(_, _, _, _, _, _) => None
  }

  /** The value a new record starts with in each field. */
  function DefaultValue(f: Field): FieldValue
  {
    match f
    case Tags => TagList([])
    case Span => Text("md:col-span-1")
    case IconType => Text("Briefcase")
    case _ => Text("")
  }

  /** The draft "add" starts from on a tab, given how many records the tab
      lists; the tabs without a form have none. */
  function Template(tab: Tab, listed: nat): Option<Record>
  {
    match tab
    case ProjectsTab => Some(Project(None, "", "", [], "", "", "", "md:col-span-1", listed + 1))
    case TechTab => Some(Technology(None, "", "", listed + 1))
    case CvTab => Some(Experience(None, "", "", "", "", "Briefcase", listed + 1))
    case _ => None
  }

  /** Each form tab has a template: a record of that tab's kind, without an
      id, ordered right after the listed records, holding exactly the tab's
      form fields, each at its default value. */
  lemma TemplateFollowsRegistry(tab: Tab, listed: nat)
    ensures Template(tab, listed).Some? <==> FormFields(tab) != {}
    ensures Template(tab, listed).Some? ==>
              var d := Template(tab, listed).value;
              && FormFor(tab, d) && d.id == None && d.orderIndex == listed + 1
              && (forall f :: Get(d, f).Some? <==> f in FormFields(tab))
              && (forall f :: f in FormFields(tab) ==> Get(d, f) == Some(DefaultValue(f)))
  {
    assert Title in FormFields(ProjectsTab) && Name in FormFields(TechTab) && Year in FormFields(CvTab);
  }

  // =====================================================================
  // Field edits
  // =====================================================================

  /** The tags input: split on ",", every segment trimmed, empty segments
      kept, so there is one tag more than there are commas. */
  function ParseTags(input: string): (r: seq<string>)
    ensures |r| == Occurrences(input, ',') + 1
    ensures forall i :: 0 <= i < |r| ==> Trimmed(r[i]) && ',' !in r[i]
    ensures forall i :: 0 <= i < |r| ==> r[i] == Trim(Split(input, ',')[i])
  {
    var parts := Split(input, ',');
    var r := seq(|parts|, i requires 0 <= i < |parts| => Trim(parts[i]));
    assert forall i :: 0 <= i < |r| ==> ',' !in r[i] by {
      forall i | 0 <= i < |r| ensures ',' !in r[i] {
        TrimKeepsAbsent(parts[i], ',');
      }
    }
    r
  }

  /** The text the tags input shows: the tags joined by ", ", that is, the
      comma-separated segments are the tags, every one after the first
      behind one space. */
  function JoinTags(tags: seq<string>): (r: string)
    ensures tags == [] ==> r == ""
    ensures |tags| >= 1 ==> r == Join(Spaced(tags), ",")
  {
    assert |tags| >= 1 ==> Join(tags, ", ") == Join(Spaced(tags), ",") by {
      if |tags| >= 1 {
        JoinSpaced(tags);
      }
    }
    Join(tags, ", ")
  }

  /** What a field reads after typing `input` into it. */
  function InputValue(f: Field, input: string): FieldValue
  {
    if f == Tags then TagList(ParseTags(input)) else Text(input)
  }

  /** `{ ...editingItem, [f]: value }`. On a kind that has field `f`, that
      field reads the typed value and every other field, the id, the order
      and the kind stay as they were; on a kind without `f` nothing changes. */
  function WithField(d: Record, f: Field, input: string): (r: Record)
    ensures Get(r, f) == (if Get(d, f).Some? then Some(InputValue(f, input)) else None)
    ensures forall g :: g != f ==> Get(r, g) == Get(d, g)
    ensures Get(d, f).None? ==> r == d
    ensures r.id == d.id
    ensures r.Project? == d.Project? && r.Technology? == d.Technology? && r.Experience? == d.Experience?
    ensures !d.Message? ==> r.orderIndex == d.orderIndex
  {
    match d
    case Project(id, title, description, tags, githubUrl, liveUrl, imageUrl, span, order) =>
      (match f
       case Title => Project(id, input, description, tags, githubUrl, liveUrl, imageUrl, span, order)
       case Description => Project(id, title, input, tags, githubUrl, liveUrl, imageUrl, span, order)
       case Tags => d.(tags := ParseTags(input))
       case GithubUrl => d.(githubUrl := input)
       case LiveUrl => d.(liveUrl := input)
       case ImageUrl => d.(imageUrl := input)
       case Span => d.(span := input)
       case _ => d)
    case Technology(id, name, category, order) =>
      (match f
       case Name => Technology(id, input, category, order)
       case Category => d.(category := input)
       case _ => d)
    case Experience(id, year, title, company, description, iconType, order) =>
      (match f
       case Year => d.(year := input)
       case Title => Experience(id, year, input, company, description, iconType, order)
       case Company => d.(company := input)
       case Description => Experience(id, year, title, company, input, iconType, order)
       case IconType => d.(iconType := input)
       case _ => d)
    case Message(_, _, _, _, _, _) => d
  }

  /** An editable record is determined by its kind, id, order and fields:
      so `WithField` changing one field reading and nothing else means it changed
      exactly one field. */
  lemma RecordsAgree(a: Record, b: Record)
    requires !a.Message? && !b.Message?
    requires a.Project? == b.Project? && a.Technology? == b.Technology?
    requires a.id == b.id && a.orderIndex == b.orderIndex
    requires forall f :: Get(a, f) == Get(b, f)
    ensures a == b
  {
    assert Get(a, Title) == Get(b, Title) && Get(a, Description) == Get(b, Description);
    assert Get(a, Tags) == Get(b, Tags) && Get(a, GithubUrl) == Get(b, GithubUrl);
    assert Get(a, LiveUrl) == Get(b, LiveUrl) && Get(a, ImageUrl) == Get(b, ImageUrl);
    assert Get(a, Span) == Get(b, Span) && Get(a, Name) == Get(b, Name);
    assert Get(a, Category) == Get(b, Category) && Get(a, Year) == Get(b, Year);
    assert Get(a, Company) == Get(b, Company) && Get(a, IconType) == Get(b, IconType);
  }

  // =====================================================================
  // Tag text round trip
  // =====================================================================

  /** `", ".join` of segments is the ","-join of the segments after the
      first, each prefixed with a space. */
  function Spaced(tags: seq<string>): seq<string>
    requires |tags| >= 1
  {
    [tags[0]] + seq(|tags| - 1, i requires 0 <= i < |tags| - 1 => " " + tags[i + 1])
  }

  lemma {:induction false} JoinSpaced(tags: seq<string>)
    requires |tags| >= 1
    ensures Join(tags, ", ") == Join(Spaced(tags), ",")
    decreases |tags|
  {
    if |tags| >= 2 {
      JoinSpaced(tags[1..]);
      var s, t := Spaced(tags), Spaced(tags[1..]);
      assert s[1..] == [" " + t[0]] + t[1..];
      assert Join(s[1..], ",") == " " + Join(t, ",") by {
        JoinPrepend(' ', t, ",");
      }
    }
  }

  /** The segments of the spaced join are the tags, the later ones behind
      one space; none holds a comma when no tag does. */
  lemma SpacedSegments(tags: seq<string>)
    requires |tags| >= 1
    requires forall i :: 0 <= i < |tags| ==> ',' !in tags[i]
    ensures |Spaced(tags)| == |tags| && Spaced(tags)[0] == tags[0]
    ensures forall i :: 1 <= i < |tags| ==> Spaced(tags)[i] == " " + tags[i]
    ensures forall i :: 0 <= i < |tags| ==> ',' !in Spaced(tags)[i]
  {
    var s := Spaced(tags);
    forall i | 1 <= i < |tags| ensures s[i] == " " + tags[i] && ',' !in s[i] {
      assert s[i] == " " + tags[i - 1 + 1];
    }
  }

  /** One segment of the spaced join. */
  lemma SpacedSegmentAt(tags: seq<string>, i: nat)
    requires i < |tags|
    ensures |Spaced(tags)| == |tags|
    ensures Spaced(tags)[i] == if i == 0 then tags[0] else " " + tags[i]
  {
    if i > 0 {
      assert Spaced(tags)[i] == " " + tags[i - 1 + 1];
    }
  }

  /** Trimming a trimmed tag behind the one space of the join gives the tag. */
  lemma TrimAfterSpace(tag: string)
    requires Trimmed(tag)
    ensures Trim(" " + tag) == tag
  {
    assert " " + tag + "" == " " + tag;
    TrimPadded(" ", tag, "");
  }

  /** Splitting the printed tags at commas gives back the spaced segments. */
  lemma SplitJoinedTags(tags: seq<string>)
    requires |tags| >= 1
    requires forall i :: 0 <= i < |tags| ==> ',' !in tags[i]
    ensures Split(JoinTags(tags), ',') == Spaced(tags)
  {
    SpacedSegments(tags);
    SplitJoin(Spaced(tags), ',');
  }

  /** Reading back a text whose comma-separated segments are the spaced
      tags gives the tags. */
  lemma ParseSpaced(text: string, tags: seq<string>)
    requires |tags| >= 1
    requires forall i :: 0 <= i < |tags| ==> Trimmed(tags[i])
    requires Split(text, ',') == Spaced(tags)
    ensures ParseTags(text) == tags
  {
    var r := ParseTags(text);
    forall i | 0 <= i < |tags| ensures r[i] == tags[i] {
      ParsedTag(text, tags, i);
    }
  }

  /** One tag of `ParseSpaced`: the `i`-th segment trims to the `i`-th tag. */
  lemma ParsedTag(text: string, tags: seq<string>, i: nat)
    requires i < |tags| && Trimmed(tags[i])
    requires Split(text, ',') == Spaced(tags)
    ensures |ParseTags(text)| == |tags| && ParseTags(text)[i] == tags[i]
  {
    SpacedSegmentAt(tags, i);
    if i == 0 {
      TrimOfTrimmed(tags[0]);
    } else {
      TrimAfterSpace(tags[i]);
    }
  }

  /** Printing a non-empty list of trimmed, comma-free tags into the input
      and reading it back gives the same tags. */
  lemma TagsRoundTrip(tags: seq<string>)
    requires |tags| >= 1
    requires forall i :: 0 <= i < |tags| ==> Trimmed(tags[i]) && ',' !in tags[i]
    ensures ParseTags(JoinTags(tags)) == tags
  {
    SplitJoinedTags(tags);
    ParseSpaced(JoinTags(tags), tags);
  }

  /** The tag list of a new project prints as "", which reads back as one
      empty tag, not as no tags. */
  lemma EmptyTagsReadBackAsOneEmptyTag()
    ensures ParseTags(JoinTags([])) == [""]
  {
    assert Trim("") == "";
  }

  // =====================================================================
  // Image storage path
  // =====================================================================

  lemma {:induction false} JoinLast(parts: seq<string>, sep: string)
    requires |parts| >= 2
    ensures Join(parts, sep) == Join(parts[..|parts| - 1], sep) + sep + parts[|parts| - 1]
    decreases |parts|
  {
    if |parts| > 2 {
      JoinLast(parts[1..], sep);
      assert parts[1..][..|parts| - 2] == parts[..|parts| - 1][1..];
    }
  }

  /** `fileName.split('.').pop()`: the text after the last ".", or the whole
      name when it has no ".": a dot-free suffix that is either the whole
      name or preceded by a ".". */
  function FileExtension(fileName: string): (r: string)
    ensures '.' !in r
    ensures |r| <= |fileName| && r == fileName[|fileName| - |r|..]
    ensures |r| < |fileName| ==> fileName[|fileName| - |r| - 1] == '.'
    ensures |r| == |fileName| <==> '.' !in fileName
  {
    var parts := Split(fileName, '.');
    var r := parts[|parts| - 1];
    assert |r| <= |fileName| && r == fileName[|fileName| - |r|..]
           && (|parts| >= 2 ==> |r| < |fileName| && fileName[|fileName| - |r| - 1] == '.')
           && (|parts| == 1 ==> r == fileName) by {
      JoinSplit(fileName, '.');
      if |parts| >= 2 {
        JoinLast(parts, ".");
        assert fileName == Join(parts[..|parts| - 1], ".") + "." + r;
      }
    }
    r
  }

  /** The object path of an upload: `project-previews/<name>.<extension>`,
      where `name` is the random name the page draws. It keeps the chosen
      file's extension. */
  function StoragePath(name: string, fileName: string): (r: string)
    ensures "project-previews/" + name + "." <= r
    ensures FileExtension(r) == FileExtension(fileName)
    ensures |r| == |"project-previews/" + name + "."| + |FileExtension(fileName)|
  {
    var r := "project-previews/" + name + "." + FileExtension(fileName);
    assert FileExtension(r) == FileExtension(fileName) by {
      ExtensionAfterLastDot("project-previews/" + name, FileExtension(fileName));
    }
    r
  }

  /** The extension is determined by the characterisation above: whatever
      precedes the last ".", the text after it is the extension. */
  lemma ExtensionAfterLastDot(stem: string, ext: string)
    requires '.' !in ext
    ensures FileExtension(stem + "." + ext) == ext
  {
    var s := stem + "." + ext;
    var r := FileExtension(s);
    assert s[|s| - |ext|..] == ext && s[|s| - |ext| - 1] == '.';
    forall k | |s| - |r| <= k < |s| ensures s[k] != '.' {
      assert s[k] == r[k - (|s| - |r|)];
    }
    forall k | |s| - |ext| <= k < |s| ensures s[k] != '.' {
      assert s[k] == ext[k - (|s| - |ext|)];
    }
  }

  // =====================================================================
  // Analytics
  // =====================================================================

  /** `page_views` rows are stored oldest first. */
  predicate Chronological(views: seq<PageView>)
  {
    forall i, j :: 0 <= i < j < |views| ==> views[i].createdAt <= views[j].createdAt
  }

  function Brief(v: PageView): RecentView
  {
    RecentView(v.pagePath, v.createdAt)
  }

  /** The `k` most recent views, newest first: position `i` holds the view
      `i` places from the end of the table. */
  function Newest(views: seq<PageView>, k: nat): (r: seq<RecentView>)
    ensures |r| == if k < |views| then k else |views|
    ensures forall i :: 0 <= i < |r| ==> r[i] == Brief(views[|views| - 1 - i])
  {
    if k == 0 || views == [] then []
    else [Brief(views[|views| - 1])] + Newest(views[..|views| - 1], k - 1)
  }

  /** The exact count query; `None` when it fails. */
  function CountQuery(views: seq<PageView>, ok: bool): Option<int>
  {
    if ok then Some(|views|) else None
  }

  /** `order("created_at", { ascending: false }).limit(10)`; `None` when it fails. */
  function RecentQuery(views: seq<PageView>, ok: bool): (r: Option<seq<RecentView>>)
    ensures r.Some? <==> ok
    ensures ok ==> |r.value| == if |views| < 10 then |views| else 10
    ensures ok ==> forall i :: 0 <= i < |r.value| ==> r.value[i] == Brief(views[|views| - 1 - i])
  {
    if ok then Some(Newest(views, 10)) else None
  }

  /** `{ total_views: count || 0, unique_visitors: 0, recent_views: data || [] }`. */
  function ShapeAnalytics(count: Option<int>, recent: Option<seq<RecentView>>): Analytics
  {
    Analytics(if count.Some? && count.value != 0 then count.value else 0, 0, recent.GetOr([]))
  }

  /** The analytics load: the total is the number of views (0 if the count
      query fails), unique visitors are always 0, and the recent list holds
      the at most 10 newest views, newest first (none if its query fails). */
  lemma AnalyticsLoad(views: seq<PageView>, countOk: bool, recentOk: bool)
    requires Chronological(views)
    ensures var a := ShapeAnalytics(CountQuery(views, countOk), RecentQuery(views, recentOk));
            && a.totalViews == (if countOk then |views| else 0)
            && a.uniqueVisitors == 0
            && |a.recentViews| == (if !recentOk then 0 else if |views| < 10 then |views| else 10)
            && (forall i :: 0 <= i < |a.recentViews| ==> a.recentViews[i] == Brief(views[|views| - 1 - i]))
            && (forall i, j :: 0 <= i < j < |a.recentViews| ==>
                  a.recentViews[i].createdAt >= a.recentViews[j].createdAt)
  {
    var a := ShapeAnalytics(CountQuery(views, countOk), RecentQuery(views, recentOk));
    forall i, j | 0 <= i < j < |a.recentViews|
      ensures a.recentViews[i].createdAt >= a.recentViews[j].createdAt
    {
      assert views[|views| - 1 - j].createdAt <= views[|views| - 1 - i].createdAt;
    }
  }

  /** The text under "Visites récentes" when there is nothing to list. */
  function RecentPlaceholder(a: Analytics): Option<string>
  {
    if |a.recentViews| == 0 then Some("Aucune visite enregistrée pour le moment") else None
  }

  /** With no stored page views the dashboard shows 0 views and the
      placeholder text, whichever queries succeed. */
  lemma NoViewsShowsPlaceholder(countOk: bool, recentOk: bool)
    ensures var a := ShapeAnalytics(CountQuery([], countOk), RecentQuery([], recentOk));
            a.totalViews == 0 && a.recentViews == []
            && RecentPlaceholder(a) == Some("Aucune visite enregistrée pour le moment")
  {
  }

  // =====================================================================
  // Backend tables
  // =====================================================================

  /** Every stored row has an id, and no two rows of a table share one. */
  predicate UniqueIds(rows: seq<Record>)
  {
    && (forall i :: 0 <= i < |rows| ==> rows[i].id.Some?)
    && (forall i, j :: 0 <= i < j < |rows| ==> rows[i].id != rows[j].id)
  }

  function HasId(rows: seq<Record>, id: string): bool
  {
    exists i :: 0 <= i < |rows| && rows[i].id == Some(id)
  }

  /** `.delete().eq("id", id)`: the rows with another id, in order. */
  function RemoveById(rows: seq<Record>, id: string): (r: seq<Record>)
    ensures forall k :: 0 <= k < |r| ==> r[k].id != Some(id) && r[k] in rows
    ensures |r| <= |rows|
  {
    if rows == [] then []
    else
      var rest := RemoveById(rows[1..], id);
      assert forall k :: 0 <= k < |rest| ==> rest[k] in rows by {
        forall k | 0 <= k < |rest| ensures rest[k] in rows {
          var j :| 0 <= j < |rows[1..]| && rows[1..][j] == rest[k];
          assert rows[j + 1] == rest[k];
        }
      }
      if rows[0].id == Some(id) then rest else [rows[0]] + rest
  }

  lemma {:induction false} RemoveAbsent(rows: seq<Record>, id: string)
    requires !HasId(rows, id)
    ensures RemoveById(rows, id) == rows
  {
    if rows != [] {
      assert !HasId(rows[1..], id);
      RemoveAbsent(rows[1..], id);
      assert rows == [rows[0]] + rows[1..];
    }
  }

  /** With unique ids, deleting by id removes exactly the row at the one
      position holding that id and keeps every other row in order; if no row
      holds it, nothing changes. */
  lemma {:induction false} RemoveExactlyOne(rows: seq<Record>, id: string, k: nat)
    requires UniqueIds(rows)
    requires k < |rows| && rows[k].id == Some(id)
    ensures RemoveById(rows, id) == rows[..k] + rows[k + 1..]
  {
    if k == 0 {
      assert !HasId(rows[1..], id);
      RemoveAbsent(rows[1..], id);
    } else {
      assert UniqueIds(rows[1..]) by {
        forall i, j | 0 <= i < j < |rows[1..]| ensures rows[1..][i].id != rows[1..][j].id {
          assert rows[1..][i] == rows[i + 1] && rows[1..][j] == rows[j + 1];
        }
      }
      RemoveExactlyOne(rows[1..], id, k - 1);
      assert rows[0].id != rows[k].id;
      assert rows[..k] + rows[k + 1..] == [rows[0]] + (rows[1..][..k - 1] + rows[1..][k..]);
    }
  }

  /** Dropping one row keeps the ids unique. */
  lemma DropKeepsUnique(rows: seq<Record>, k: nat)
    requires UniqueIds(rows) && k < |rows|
    ensures UniqueIds(rows[..k] + rows[k + 1..])
  {
    var r := rows[..k] + rows[k + 1..];
    forall i | 0 <= i < |r| ensures r[i] == rows[if i < k then i else i + 1] {
    }
    forall i, j | 0 <= i < j < |r| ensures r[i].id != r[j].id {
      var i', j' := if i < k then i else i + 1, if j < k then j else j + 1;
      assert r[i] == rows[i'] && r[j] == rows[j'];
    }
  }

  /** Deleting by id keeps the ids unique. */
  lemma RemoveKeepsUnique(rows: seq<Record>, id: string)
    requires UniqueIds(rows)
    ensures UniqueIds(RemoveById(rows, id))
  {
    if HasId(rows, id) {
      var k :| 0 <= k < |rows| && rows[k].id == Some(id);
      RemoveExactlyOne(rows, id, k);
      DropKeepsUnique(rows, k);
    } else {
      RemoveAbsent(rows, id);
    }
  }

  /** `.update(data).eq("id", id)`: every row holding the id becomes `data`;
      an absent id matches no row. */
  function UpdateById(rows: seq<Record>, id: Option<string>, data: Record): (r: seq<Record>)
    ensures |r| == |rows|
    ensures forall k :: 0 <= k < |rows| ==>
              r[k] == (if id.Some? && rows[k].id == id then data else rows[k])
  {
    if rows == [] then []
    else
      var rest := UpdateById(rows[1..], id, data);
      [if id.Some? && rows[0].id == id then data else rows[0]] + rest
  }

  /** Updating with a record that carries the matched id keeps the ids
      unique, changes at most the one position holding that id and leaves
      every other row as it was. */
  lemma UpdateChangesOnlyTarget(rows: seq<Record>, data: Record)
    requires UniqueIds(rows)
    ensures UniqueIds(UpdateById(rows, data.id, data))
    ensures forall k :: 0 <= k < |rows| && rows[k].id != data.id ==> UpdateById(rows, data.id, data)[k] == rows[k]
    ensures forall k, l :: 0 <= k < l < |rows| ==>
              UpdateById(rows, data.id, data)[k] == rows[k] || UpdateById(rows, data.id, data)[l] == rows[l]
  {
    var r := UpdateById(rows, data.id, data);
    forall i, j | 0 <= i < j < |r| ensures r[i].id != r[j].id {
      assert r[i].id == rows[i].id && r[j].id == rows[j].id;
    }
  }

  /** `.insert([data])`: the row is appended with the id the backend assigns. */
  function InsertRow(rows: seq<Record>, data: Record, newId: string): (r: seq<Record>)
    ensures |r| == |rows| + 1 && r[..|rows|] == rows
    ensures r[|rows|].id == Some(newId)
    ensures forall f :: Get(r[|rows|], f) == Get(data, f)
    ensures r[|rows|].Project? == data.Project? && r[|rows|].Technology? == data.Technology?
            && r[|rows|].Experience? == data.Experience?
    ensures !data.Message? ==> r[|rows|].orderIndex == data.orderIndex
  {
    rows + [data.(id := Some(newId))]
  }

  lemma InsertKeepsUnique(rows: seq<Record>, data: Record, newId: string)
    requires UniqueIds(rows) && !HasId(rows, newId)
    ensures UniqueIds(InsertRow(rows, data, newId))
  {
    var r := InsertRow(rows, data, newId);
    forall i, j | 0 <= i < j < |r| ensures r[i].id != r[j].id {
      if j == |rows| { assert r[i] == rows[i]; }
    }
  }

  /** The order each list is fetched in: `order_index` ascending, and for
      messages `created_at` descending. */
  function SortKey(r: Record): int
  {
    if r.Message? then -r.createdAt else r.orderIndex
  }

  /** A successful list query returns the table's rows, sorted by the key. */
  predicate IsQueryAnswer(answer: seq<Record>, stored: seq<Record>)
  {
    && multiset(answer) == multiset(stored)
    && forall i, j :: 0 <= i < j < |answer| ==> SortKey(answer[i]) <= SortKey(answer[j])
  }

  /** After a successful add and a reload, the list shows the new record
      with the submitted fields; after a successful delete and a reload, no
      listed row holds the deleted id. */
  lemma ReloadShowsWrites(stored: seq<Record>, data: Record, newId: string, id: string,
                          afterAdd: seq<Record>, afterDelete: seq<Record>)
    requires IsQueryAnswer(afterAdd, InsertRow(stored, data, newId))
    requires IsQueryAnswer(afterDelete, RemoveById(stored, id))
    ensures data.(id := Some(newId)) in afterAdd
    ensures forall k :: 0 <= k < |afterDelete| ==> afterDelete[k].id != Some(id)
  {
    var row := data.(id := Some(newId));
    assert row in multiset(InsertRow(stored, data, newId));
    forall k | 0 <= k < |afterDelete| ensures afterDelete[k].id != Some(id) {
      assert afterDelete[k] in multiset(afterDelete);
      assert afterDelete[k] in RemoveById(stored, id);
    }
  }

  // =====================================================================
  // Image upload completion
  // =====================================================================

  /** The upload completion as the page writes it: it spreads the draft the
      handler captured when the file was chosen, so edits typed while the
      upload ran are overwritten. */
  function UploadedDraftAsWritten(captured: Record, url: string): (r: Option<Record>)
    ensures r == UploadedDraft(Some(captured), url)
  {
    Some(WithField(captured, ImageUrl, url))
  }

  /** The completion as intended: the image URL of the current draft is set
      and nothing else about the current draft changes. */
  function UploadedDraft(current: Option<Record>, url: string): (r: Option<Record>)
    ensures r.Some? <==> current.Some?
    ensures current.Some? ==>
              var d := current.value;
              && Get(r.value, ImageUrl) == (if d.Project? then Some(Text(url)) else None)
              && (forall g :: g != ImageUrl ==> Get(r.value, g) == Get(d, g))
              && r.value.id == d.id
              && r.value.Project? == d.Project? && r.value.Technology? == d.Technology?
              && r.value.Experience? == d.Experience?
              && (!d.Message? ==> r.value.orderIndex == d.orderIndex)
  {
    if current.Some? then Some(WithField(current.value, ImageUrl, url)) else None
  }

  /** A title typed while the upload runs is lost by the page as written,
      and kept by the intended completion. */
  lemma StaleUploadDropsEdit()
    ensures var captured := Project(None, "", "", [], "", "", "", "md:col-span-1", 1);
            var current := WithField(captured, Title, "Portfolio");
            && UploadedDraftAsWritten(captured, "u").value.title == ""
            && UploadedDraft(Some(current), "u").value.title == "Portfolio"
  {
  }

  /** When the modal is closed and reopened on another record while the
      upload runs, the page as written puts the first record back as the
      draft, so a save then writes to the first record's row; the intended
      completion keeps the record the modal was reopened on. */
  lemma StaleUploadRestoresOtherRecord()
    ensures var a := Technology(Some("a"), "React", "Framework", 1);
            var b := Technology(Some("b"), "Python", "Language", 2);
            && UploadedDraftAsWritten(a, "u").value.id == Some("a")
            && UploadedDraft(Some(b), "u").value.id == Some("b")
  {
  }

  // =====================================================================
  // The admin page's state
  // =====================================================================

  /**
   * The admin page. Tabs, lists and the modal state are the page's own
   * state; `tables`, `pageViews` and `bucket` stand for the backend (the
   * rows of each table, the page-view log, the object paths of the
   * `portfolio` storage bucket). `pendingUpload` is the object path an
   * upload in progress writes to: the value the upload handler holds while
   * it awaits the storage call.
   */
  class AdminSession {
    var activeTab: Tab
    var projects: seq<Record>
    var technologies: seq<Record>
    var experiences: seq<Record>
    var messages: seq<Record>
    var analytics: Analytics
    var isUploading: bool
    var modalMode: Option<Mode>
    var editingItem: Option<Record>
    var deleteConfirmation: Option<DeleteRequest>
    var pendingUpload: Option<string>
    /** The draft as it was when the running upload's file was chosen: the
        value the upload's completion callback closes over. */
    var uploadBase: Option<Record>

    var tables: map<Table, seq<Record>>
    var pageViews: seq<PageView>
    var bucket: set<string>

    /** The backend holds all four tables with unique ids and its page views
        oldest first; an upload is pending exactly while the flag is set, and
        a captured draft exists exactly while it is. */
    ghost predicate Valid()
      reads this
    {
      && (forall t: Table :: t in tables)
      && (forall t :: t in tables ==> UniqueIds(tables[t]))
      && Chronological(pageViews)
      && (isUploading <==> pendingUpload.Some?)
      && (isUploading <==> uploadBase.Some?)
    }

    /** The list a tab shows. */
    function Listed(tab: Tab): seq<Record>
      reads this
    {
      match tab
      case ProjectsTab => projects
      case TechTab => technologies
      case CvTab => experiences
      case MessagesTab => messages
      case AnalyticsTab => []
    }

    /** The add/edit modal renders when a mode is set and a draft exists. */
    predicate ModalVisible()
      reads this
    {
      modalMode.Some? && editingItem.Some?
    }

    /** The delete confirmation renders while a delete is pending. */
    predicate DeleteDialogVisible()
      reads this
    {
      deleteConfirmation.Some?
    }

    /** The page as first rendered: the analytics tab, empty lists and zero
        analytics, no modal, no pending delete, no upload. */
    constructor (stored: map<Table, seq<Record>>, views: seq<PageView>, objects: set<string>)
      requires (forall t: Table :: t in stored) && (forall t :: t in stored ==> UniqueIds(stored[t]))
      requires Chronological(views)
      ensures Valid()
      ensures activeTab == AnalyticsTab
      ensures projects == [] && technologies == [] && experiences == [] && messages == []
      ensures analytics == Analytics(0, 0, [])
      ensures modalMode == None && editingItem == None && deleteConfirmation == None
      ensures !isUploading && !ModalVisible() && !DeleteDialogVisible()
      ensures tables == stored && pageViews == views && bucket == objects
    {
      activeTab := AnalyticsTab;
      projects, technologies, experiences, messages := [], [], [], [];
      analytics := Analytics(0, 0, []);
      isUploading := false;
      modalMode, editingItem, deleteConfirmation := None, None, None;
      pendingUpload, uploadBase := None, None;
      tables, pageViews, bucket := stored, views, objects;
    }

    /** A tab button. */
    method SelectTab(tab: Tab)
      requires Valid()
      modifies this`activeTab
      ensures Valid()
      ensures activeTab == tab
    {
      activeTab := tab;
    }

    /** `loadData` for the active tab: only that tab's list (or the
        analytics) is replaced, by the query's answer on success and by the
        empty list when the query returns no data. `answer` is the sorted
        table the backend returns; `countOk` is the outcome of the analytics
        count query and `ok` that of the tab's other query. */
    method Load(ok: bool, answer: seq<Record>, countOk: bool)
      requires Valid()
      requires ok && ListTable(activeTab).Some? ==> IsQueryAnswer(answer, tables[ListTable(activeTab).value])
      modifies this`projects, this`technologies, this`experiences, this`messages, this`analytics
      ensures ListTable(activeTab).Some? ==> Listed(activeTab) == (if ok then answer else [])
      ensures activeTab == AnalyticsTab ==>
                analytics == ShapeAnalytics(CountQuery(pageViews, countOk), RecentQuery(pageViews, ok))
      ensures Valid()
      ensures forall tab :: tab != activeTab ==> Listed(tab) == old(Listed(tab))
      ensures activeTab != AnalyticsTab ==> analytics == old(analytics)
    {
      var rows := if ok then answer else [];
      match activeTab
      case ProjectsTab => projects := rows;
      case TechTab => technologies := rows;
      case CvTab => experiences := rows;
      case MessagesTab => messages := rows;
      case AnalyticsTab =>
        analytics := ShapeAnalytics(CountQuery(pageViews, countOk), RecentQuery(pageViews, ok));
    }

    /** The "add" button: the mode becomes add and, on a tab with a form,
        the draft becomes that tab's template ordered after its listed
        records. */
    method OpenAdd()
      requires Valid()
      modifies this`modalMode, this`editingItem
      ensures Valid()
      ensures modalMode == Some(Add)
      ensures editingItem == (if Template(activeTab, |Listed(activeTab)|).Some?
                              then Template(activeTab, |Listed(activeTab)|) else old(editingItem))
    {
      modalMode := Some(Add);
      var t := Template(activeTab, |Listed(activeTab)|);
      if t.Some? {
        editingItem := t;
      }
    }

    /** The edit button of a listed record: the mode becomes edit and the
        draft a copy of the record; the list itself is untouched. */
    method OpenEdit(item: Record)
      requires Valid()
      modifies this`modalMode, this`editingItem
      ensures Valid() && ModalVisible()
      ensures modalMode == Some(Edit) && editingItem == Some(item)
    {
      modalMode := Some(Edit);
      editingItem := Some(item);
    }

    /** Typing `input` into a form field of the open modal (the image's
        remove button types ""): only the draft changes, by `WithField`. */
    method EditField(f: Field, input: string)
      requires Valid() && ModalVisible()
      modifies this`editingItem
      ensures Valid() && ModalVisible()
      ensures editingItem == Some(WithField(old(editingItem).value, f, input))
    {
      editingItem := Some(WithField(editingItem.value, f, input));
    }

    /** The backdrop, the close button and "Annuler": only the mode is
        cleared; the draft is kept. */
    method CancelModal()
      requires Valid()
      modifies this`modalMode
      ensures Valid() && !ModalVisible()
      ensures modalMode == None
    {
      modalMode := None;
    }

    /** "Sauvegarder": in add mode the draft is inserted into the tab's
        table, in edit mode the row holding the draft's id is replaced by the
        draft. On success the modal closes and the draft is dropped; on
        failure the table, mode and draft stay for a retry. `newId` is the id
        the backend assigns to an inserted row. */
    method Save(ok: bool, newId: string)
      requires Valid() && ModalVisible()
      requires ok && modalMode == Some(Add) ==> !HasId(tables[SaveTable(activeTab)], newId)
      modifies this`tables, this`modalMode, this`editingItem
      ensures Valid()
      ensures var t, d := SaveTable(activeTab), old(editingItem).value;
              && (ok && old(modalMode) == Some(Add) ==>
                    tables == old(tables)[t := InsertRow(old(tables)[t], d, newId)])
              && (ok && old(modalMode) == Some(Edit) ==>
                    tables == old(tables)[t := UpdateById(old(tables)[t], d.id, d)])
      ensures ok ==> modalMode == None && editingItem == None && !ModalVisible()
      ensures !ok ==> tables == old(tables) && modalMode == old(modalMode) && editingItem == old(editingItem)
    {
      if !ok {
        return;
      }
      var t, d := SaveTable(activeTab), editingItem.value;
      if modalMode == Some(Add) {
        InsertKeepsUnique(tables[t], d, newId);
        tables := tables[t := InsertRow(tables[t], d, newId)];
      } else {
        UpdateChangesOnlyTarget(tables[t], d);
        tables := tables[t := UpdateById(tables[t], d.id, d)];
      }
      modalMode := None;
      editingItem := None;
    }

    /** A delete button: the request is recorded and nothing else changes. */
    method RequestDelete(table: Table, id: string)
      requires Valid()
      modifies this`deleteConfirmation
      ensures Valid() && DeleteDialogVisible()
      ensures deleteConfirmation == Some(DeleteRequest(table, id))
    {
      deleteConfirmation := Some(DeleteRequest(table, id));
    }

    /** The backdrop and "Annuler" of the confirmation: the request is dropped. */
    method CancelDelete()
      requires Valid()
      modifies this`deleteConfirmation
      ensures Valid() && !DeleteDialogVisible()
      ensures deleteConfirmation == None
    {
      deleteConfirmation := None;
    }

    /** "Supprimer": with nothing pending, nothing happens. Otherwise the
        request is dropped whatever the outcome, and on success the rows
        holding the id leave that table and every other table is unchanged. */
    method ConfirmDelete(ok: bool)
      requires Valid()
      modifies this`tables, this`deleteConfirmation
      ensures Valid() && !DeleteDialogVisible()
      ensures old(deleteConfirmation).None? ==> tables == old(tables) && deleteConfirmation == None
      ensures old(deleteConfirmation).Some? ==>
                var req := old(deleteConfirmation).value;
                && deleteConfirmation == None
                && tables == (if ok then old(tables)[req.table := RemoveById(old(tables)[req.table], req.id)]
                              else old(tables))
    {
      if deleteConfirmation.None? {
        return;
      }
      var req := deleteConfirmation.value;
      if ok {
        RemoveKeepsUnique(tables[req.table], req.id);
        tables := tables[req.table := RemoveById(tables[req.table], req.id)];
      }
      deleteConfirmation := None;
    }

    /** Choosing a file for the project image (the input is disabled while
        an upload runs). Without a file nothing changes; otherwise the flag is
        raised, the object path is fixed from the random name and the file's
        extension, and the current draft is captured for the completion. */
    method BeginUpload(file: Option<string>, randomName: string) returns (path: Option<string>)
      requires Valid() && ModalVisible() && !isUploading
      modifies this`isUploading, this`pendingUpload, this`uploadBase
      ensures Valid()
      ensures file.None? ==> path == None && !isUploading && pendingUpload == None && uploadBase == None
      ensures file.Some? ==> path == Some(StoragePath(randomName, file.value))
                             && isUploading && pendingUpload == path && uploadBase == editingItem
    {
      if file.None? {
        return None;
      }
      path := Some(StoragePath(randomName, file.value));
      isUploading := true;
      pendingUpload := path;
      uploadBase := editingItem;
    }

    /** The storage call settles. The flag is cleared either way; on success
        the object is stored and the draft's image URL becomes the public URL,
        on failure the draft is left as it is. The draft updated is the
        current one (`UploadedDraft`); when nothing was typed since the file
        was chosen this is exactly what the page's completion, which spreads
        the captured draft, produces (`UploadedDraftAsWritten`). */
    method FinishUpload(ok: bool, publicUrl: string)
      requires Valid() && isUploading
      modifies this`isUploading, this`pendingUpload, this`uploadBase, this`bucket, this`editingItem
      ensures Valid() && !isUploading
      ensures ok ==> bucket == old(bucket) + {old(pendingUpload).value}
                     && editingItem == UploadedDraft(old(editingItem), publicUrl)
      ensures ok && old(uploadBase) == old(editingItem) ==>
                editingItem == UploadedDraftAsWritten(old(uploadBase).value, publicUrl)
      ensures !ok ==> bucket == old(bucket) && editingItem == old(editingItem)
    {
      if ok {
        bucket := bucket + {pendingUpload.value};
        editingItem := UploadedDraft(editingItem, publicUrl);
      }
      isUploading := false;
      pendingUpload, uploadBase := None, None;
    }
  }
}
