/** The welcome form of components/Welcome.tsx: a controlled name input, a
    submit button guarded against blank names, and a plain button that
    opens the leaderboard. */
module WelcomeComponent {
  import JsString

  /** What the form hands to its parent. */
  datatype Callback = OnStart(name: string) | OnViewLeaderboard

  /** The form's events: typing, submitting (the submit button or Enter),
      and the `type="button"` leaderboard button, which does not submit. */
  datatype FormEvent = Change(value: string) | Submit | LeaderboardClick

  class Welcome {
    var name: string

    constructor ()
      ensures name == ""
    {
      name := "";
    }

    /** `handleSubmit`: starts the quiz with the name exactly as typed when
        it holds at least one non-whitespace code point, and does nothing
        otherwise. */
    method HandleSubmit() returns (started: seq<Callback>)
      ensures |started| <= 1
      ensures started != [] <==> JsString.HasContent(name)
      ensures started != [] ==> started == [OnStart(name)]
    {
      if JsString.Trim(name) != "" {
        started := [OnStart(name)];
      } else {
        started := [];
      }
    }

    /** One form event and the callbacks it makes. */
    method Handle(event: FormEvent) returns (calls: seq<Callback>)
      modifies this
      ensures name == if event.Change? then event.value else old(name)
      ensures |calls| <= 1
      ensures event.Change? ==> calls == []
      ensures event.Submit? ==> calls == (if JsString.HasContent(name) then [OnStart(name)] else [])
      ensures event.LeaderboardClick? ==> calls == [OnViewLeaderboard]
    {
      match event {
        case Change(value) =>
          name := value;
          calls := [];
        case Submit =>
          calls := HandleSubmit();
        case LeaderboardClick =>
          calls := [OnViewLeaderboard];
      }
    }
  }

  /** A whitespace-only name never starts the quiz, and a name with content
      is passed on untrimmed, surrounding spaces included. */
  method SubmitWith(typed: string) returns (calls: seq<Callback>)
    ensures calls == [] <==> forall k :: 0 <= k < |typed| ==> JsString.IsTrimmed(typed[k])
    ensures calls != [] ==> calls == [OnStart(typed)]
  {
    var form := new Welcome();
    var _ := form.Handle(Change(typed));
    calls := form.Handle(Submit);
  }
}
