/** The comment list of a movie page, kept in the browser: posting prepends,
    deleting filters by identifier after an ownership check, and each entry
    shows how long ago it was written. */
module CommentSection {
  import opened Wrappers
  import opened Text

  /** An entry of the list. `timestamp` is milliseconds since the epoch. */
  datatype LocalComment = LocalComment(id: string, text: string, username: string,
                                       timestamp: int, movieId: string)

  /** `comments.find(c => c.id === id)`: the first entry with that identifier. */
  function FindEntry(comments: seq<LocalComment>, id: string): (r: Option<LocalComment>)
    ensures r.None? <==> forall i :: 0 <= i < |comments| ==> comments[i].id != id
    ensures r.Some? ==> exists k :: 0 <= k < |comments| && comments[k] == r.value && r.value.id == id
                         && forall j :: 0 <= j < k ==> comments[j].id != id
  {
    if comments == [] then None
    else if comments[0].id == id then Some(comments[0])
    else
      var r := FindEntry(comments[1..], id);
      assert r.Some? ==> exists k :: 0 <= k < |comments[1..]| && comments[1..][k] == r.value
                                     && forall j :: 0 <= j < k ==> comments[1..][j].id != id;
      r
  }

  /** `comments.filter(c => c.id !== id)`. */
  function RemoveEntries(comments: seq<LocalComment>, id: string): (r: seq<LocalComment>)
    ensures |r| <= |comments|
  {
    if comments == [] then []
    else (if comments[0].id == id then [] else [comments[0]]) + RemoveEntries(comments[1..], id)
  }

  /** The filter keeps exactly the entries with another identifier. */
  lemma {:induction false} RemoveEntriesMembers(comments: seq<LocalComment>, id: string)
    ensures forall c :: c in RemoveEntries(comments, id) <==> c in comments && c.id != id
  {
    if comments != [] {
      RemoveEntriesMembers(comments[1..], id);
      assert comments == [comments[0]] + comments[1..];
    }
  }

  /** The filter works piece by piece, so it keeps the survivors' order. */
  lemma {:induction false} RemoveEntriesAppend(a: seq<LocalComment>, b: seq<LocalComment>, id: string)
    ensures RemoveEntries(a + b, id) == RemoveEntries(a, id) + RemoveEntries(b, id)
  {
    if a != [] {
      assert (a + b)[0] == a[0];
      assert (a + b)[1..] == a[1..] + b;
      RemoveEntriesAppend(a[1..], b, id);
    } else {
      assert a + b == b;
    }
  }

  /** Filtering out an identifier no entry has changes nothing. */
  lemma {:induction false} RemoveEntriesAbsent(comments: seq<LocalComment>, id: string)
    requires forall i :: 0 <= i < |comments| ==> comments[i].id != id
    ensures RemoveEntries(comments, id) == comments
  {
    if comments != [] {
      RemoveEntriesAbsent(comments[1..], id);
      assert comments == [comments[0]] + comments[1..];
    }
  }

  /** The component's state. `userMode` and `username` are read from
      localStorage when the component renders. */
  class CommentList {
    const movieId: string
    const userMode: string
    const username: string
    var comments: seq<LocalComment>
    var newComment: string
    var loading: bool

    /** `localStorage.getItem(k) || default`: a missing or empty entry gives the default. */
    constructor (movieId: string, storedMode: Option<string>, storedName: Option<string>)
      ensures this.movieId == movieId
      ensures userMode == (if Present(storedMode) then storedMode.value else "guest")
      ensures username == (if Present(storedName) then storedName.value else "")
      ensures comments == [] && newComment == "" && !loading
    {
      this.movieId := movieId;
      userMode := if Present(storedMode) then storedMode.value else "guest";
      username := if Present(storedName) then storedName.value else "";
      comments, newComment, loading := [], "", false;
    }

    /** The textarea's onChange. */
    method EditDraft(value: string)
      modifies this`newComment
      ensures newComment == value
    {
      newComment := value;
    }

    /** handleSubmitComment. `id` stands for `Date.now().toString()` and `now`
        for the current time. A blank draft, or a guest, changes nothing;
        otherwise one entry is prepended and the draft is cleared. */
    method SubmitComment(id: string, now: int)
      modifies this`comments, this`newComment, this`loading
      ensures IsBlank(old(newComment)) ==> unchanged(this)
      ensures !IsBlank(old(newComment)) && userMode == "guest" ==> unchanged(this)
      ensures !IsBlank(old(newComment)) && userMode != "guest" ==>
                comments == [LocalComment(id, Trim(old(newComment)), username, now, movieId)] + old(comments)
                && newComment == "" && !loading
    {
      TrimEmptyIffBlank(newComment);
      if Trim(newComment) == "" {
        return;
      }
      if userMode == "guest" {
        return;
      }
      loading := true;
      var comment := LocalComment(id, Trim(newComment), username, now, movieId);
      comments := [comment] + comments;
      newComment := "";
      loading := false;
    }

    /** handleDeleteComment: only when the first entry with `commentId` belongs
        to the current user are all entries with that identifier filtered out. */
    method DeleteComment(commentId: string)
      modifies this`comments
      ensures var found := FindEntry(old(comments), commentId);
        if found.Some? && found.value.username == username
        then comments == RemoveEntries(old(comments), commentId)
        else comments == old(comments)
    {
      var found := FindEntry(comments, commentId);
      if found.Some? && found.value.username == username {
        comments := RemoveEntries(comments, commentId);
      }
    }
  }

  // ---------------------------------------------------------------------------
  // formatDate: how long ago, in whole units

  const MsPerMinute: int := 60000
  const MsPerHour: int := 3600000
  const MsPerDay: int := 86400000

  /** The bucket formatDate picks; `OnDate` is the calendar-date rendering. */
  datatype Age = JustNow | MinutesAgo(minutes: int) | HoursAgo(hours: int) | DaysAgo(days: int) | OnDate

  /** `Math.floor(diffMs / unit)`: for a positive unit, Dafny's division on
      int is floor division, negative elapsed times included. */
  function FloorDiv(diffMs: int, unit: int): (q: int)
    requires unit > 0
    ensures q * unit <= diffMs < (q + 1) * unit
  {
    diffMs / unit
  }

  /** The bucket for `diffMs` milliseconds elapsed. A time in the future counts as just now. */
  function AgeOf(diffMs: int): (a: Age)
    ensures a == JustNow <==> diffMs < MsPerMinute
    ensures a.MinutesAgo? <==> MsPerMinute <= diffMs < MsPerHour
    ensures a.MinutesAgo? ==> 1 <= a.minutes < 60 && a.minutes * MsPerMinute <= diffMs < (a.minutes + 1) * MsPerMinute
    ensures a.HoursAgo? <==> MsPerHour <= diffMs < MsPerDay
    ensures a.HoursAgo? ==> 1 <= a.hours < 24 && a.hours * MsPerHour <= diffMs < (a.hours + 1) * MsPerHour
    ensures a.DaysAgo? <==> MsPerDay <= diffMs < 7 * MsPerDay
    ensures a.DaysAgo? ==> 1 <= a.days < 7 && a.days * MsPerDay <= diffMs < (a.days + 1) * MsPerDay
    ensures a == OnDate <==> diffMs >= 7 * MsPerDay
  {
    var mins := FloorDiv(diffMs, MsPerMinute);
    var hours := FloorDiv(diffMs, MsPerHour);
    var days := FloorDiv(diffMs, MsPerDay);
    if mins < 1 then JustNow
    else if mins < 60 then MinutesAgo(mins)
    else if hours < 24 then HoursAgo(hours)
    else if days < 7 then DaysAgo(days)
    else OnDate
  }

  /** The label of a relative bucket; the calendar date is not modelled. */
  function AgeLabel(a: Age): (s: Option<string>)
    requires !a.MinutesAgo? || a.minutes >= 0
    requires !a.HoursAgo? || a.hours >= 0
    requires !a.DaysAgo? || a.days >= 0
    ensures s.None? <==> a == OnDate
  {
    match a
    case JustNow => Some("Just now")
    case MinutesAgo(m) => Some(NatToString(m) + "m ago")
    case HoursAgo(h) => Some(NatToString(h) + "h ago")
    case DaysAgo(d) => Some(NatToString(d) + "d ago")
    case OnDate => None
  }

  /** formatDate for an entry stamped `stamp` shown at time `now`. */
  function FormatDate(stamp: int, now: int): (s: Option<string>)
    ensures now - stamp < MsPerMinute ==> s == Some("Just now")
    ensures MsPerMinute <= now - stamp < MsPerHour ==>
              s == Some(NatToString((now - stamp) / MsPerMinute) + "m ago")
    ensures MsPerHour <= now - stamp < MsPerDay ==>
              s == Some(NatToString((now - stamp) / MsPerHour) + "h ago")
    ensures MsPerDay <= now - stamp < 7 * MsPerDay ==>
              s == Some(NatToString((now - stamp) / MsPerDay) + "d ago")
    ensures s.None? <==> now - stamp >= 7 * MsPerDay
  {
    AgeLabel(AgeOf(now - stamp))
  }
}
