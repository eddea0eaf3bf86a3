/** The page that edits one option (src/ui/optionpage.rs, `OptPageModel::update`). It keeps
    the value as configured (`conf`) beside the value being edited (`modifiedconf`). Saving
    trims trailing newlines and spaces and asks for a type check; a value that checks becomes
    the configured one and is sent to the window as a pending edit. */
module OptionPage {
  import opened Wrappers
  import opened Strings
  import opened Options

  /** The reply of the type check that accepts a value. */
  const Accepted := "true\n"

  /** The messages the page sends: to itself, to the window, or to the type checker. */
  datatype Event =
    | DoneSaving(save: bool, message: string)
    | SetBusy(busy: bool)
    | SaveCheck(opt: string, refopt: string, value: string)
    | EditOpt(key: string, value: string)
    | SaveError(message: string)

  predicate IsTrailing(ch: char)
  {
    ch == '\n' || ch == ' '
  }

  /** The value with every trailing newline and space removed: a prefix of the value that
      does not end in either, and everything removed is one of them. A value is left as it is
      exactly when it does not end in a newline or space, so trimming twice is trimming once. */
  function TrimTrailing(s: string): (r: string)
    ensures IsPrefix(r, s)
    ensures |r| == 0 || !IsTrailing(r[|r| - 1])
    ensures forall k | |r| <= k < |s| :: IsTrailing(s[k])
    ensures r == s <==> |s| == 0 || !IsTrailing(s[|s| - 1])
    decreases |s|
  {
    if |s| > 0 && IsTrailing(s[|s| - 1]) then TrimTrailing(s[..|s| - 1]) else s
  }

  /** Trimming keeps a value's non-blank characters: a value has no such character exactly
      when it trims to empty. */
  lemma {:induction false} TrimTrailingEmpty(s: string)
    ensures TrimTrailing(s) == "" <==> forall k | 0 <= k < |s| :: IsTrailing(s[k])
    decreases |s|
  {
    if |s| > 0 && IsTrailing(s[|s| - 1]) {
      TrimTrailingEmpty(s[..|s| - 1]);
      assert forall k | 0 <= k < |s| - 1 :: s[..|s| - 1][k] == s[k];
    }
  }

  /** The message for a value the type check rejects. */
  function TypeError(value: string, opType: string): string
  {
    value + " is not of type " + opType
  }

  /** `OptPageModel`: the option on show and its two values. */
  class OptPageModel {
    var opt: seq<string>
    var refopt: seq<string>
    var data: OptionData
    var conf: string
    var modifiedconf: string
    var saving: bool

    /** The Save and Reset buttons are enabled exactly when the edited value differs from the
        configured one. */
    predicate CanSave()
      reads this
    {
      conf != modifiedconf
    }

    /** `init_model`: the window's position, no data, empty values. */
    constructor (position: seq<string>, refposition: seq<string>)
      ensures opt == position && refopt == refposition
      ensures data == OptionData(None, "", false, "", [], None)
      ensures conf == "" && modifiedconf == "" && !saving && !CanSave()
    {
      opt := position;
      refopt := refposition;
      data := OptionData(None, "", false, "", [], None);
      conf := "";
      modifiedconf := "";
      saving := false;
    }

    /** `UpdateOption(data, opt, refopt, conf)`: show another option; both values become its
        value, so nothing is to be saved. */
    method UpdateOption(d: OptionData, o: seq<string>, r: seq<string>, c: string)
      modifies this`data, this`opt, this`refopt, this`conf, this`modifiedconf
      ensures data == d && opt == o && refopt == r && conf == c && modifiedconf == c
      ensures !CanSave()
    {
      data := d;
      opt := o;
      refopt := r;
      conf := c;
      modifiedconf := c;
    }

    /** `UpdateConf(conf)`: the edited value follows the editor; only it changes. */
    method UpdateConf(c: string)
      modifies this`modifiedconf
      ensures modifiedconf == c
      ensures CanSave() <==> c != conf
    {
      if c != modifiedconf {
        modifiedconf := c;
      }
    }

    /** `ResetConf`: drop the edit, back to the configured value. */
    method ResetConf()
      modifies this`modifiedconf
      ensures modifiedconf == conf
      ensures !CanSave()
    {
      modifiedconf := conf;
    }

    /** `SaveConf`: trim the edited value; accept an empty one at once, otherwise become busy
        and ask for a type check of the option, the schema path and the trimmed value. */
    method SaveConf() returns (events: seq<Event>)
      modifies this`modifiedconf, this`saving
      ensures modifiedconf == TrimTrailing(old(modifiedconf))
      ensures modifiedconf == "" ==> (saving == old(saving) && events == [Event.DoneSaving(true, Accepted)])
      ensures modifiedconf != "" ==>
        (saving && events == [SetBusy(true), SaveCheck(Dotted(opt), Dotted(refopt), modifiedconf)])
    {
      var o := Dotted(opt);
      var r := Dotted(refopt);
      var c := modifiedconf;
      while |c| > 0 && (c[|c| - 1] == '\n' || c[|c| - 1] == ' ')
        invariant TrimTrailing(c) == TrimTrailing(old(modifiedconf))
        decreases |c|
      {
        c := c[..|c| - 1];
      }
      modifiedconf := c;
      if c == "" {
        events := [Event.DoneSaving(true, Accepted)];
      } else {
        saving := true;
        events := [SetBusy(true), SaveCheck(o, r, c)];
      }
    }

    /** `DoneSaving(save, message)`: a check that printed `true` commits the edited value and
        sends it to the window as a pending edit; any other output reports a type error, and a
        failed check reports its message. The page stops saving and the window stops being
        busy. */
    method DoneSaving(save: bool, message: string) returns (events: seq<Event>)
      modifies this`conf, this`saving
      ensures !saving
      ensures conf == if save && message == Accepted then modifiedconf else old(conf)
      ensures save && message == Accepted ==> !CanSave()
      ensures events ==
        (if save && message == Accepted then [EditOpt(Dotted(opt), modifiedconf)]
         else if save then [SaveError(TypeError(modifiedconf, data.opType))]
         else [SaveError(message)])
        + [SetBusy(false)]
    {
      events := [];
      if save {
        if message == Accepted {
          conf := modifiedconf;
          events := [EditOpt(Dotted(opt), modifiedconf)];
        } else {
          var e := TypeError(modifiedconf, data.opType);
          events := [SaveError(e)];
        }
      } else {
        events := [SaveError(message)];
      }
      saving := false;
      events := events + [SetBusy(false)];
    }
  }
}
