/**
 * The inline-button actions of the greeting (internal/monitor/action.go)
 * and how callback data is recognised as one of them.
 */
module Action {
  import opened Text

  /** The form feed that marks button data carrying an action name. */
  const FormFeed: char := 12 as char

  datatype CallbackAction = NewMemberAccept | NewMemberKick
  {
    /** The action's name: the underlying constant. */
    function String(): (s: string)
      ensures |s| > 0 && '|' !in s && FormFeed !in s
    {
      match this
      case NewMemberAccept => "new_member_accept"
      case NewMemberKick => "new_member_kick"
    }

    /** The marker and the name, alone or followed by '|' and a payload. */
    predicate DataMatches(data: string)
    {
      var marker := [FormFeed] + String();
      data == marker || HasPrefix(data, marker + "|")
    }
  }

  /** The callback data of a button made with this action and payload. */
  function ButtonData(a: CallbackAction, payload: string): (d: string)
    ensures SplitPipe2(d) == [[FormFeed] + a.String(), payload]
  {
    var marker := [FormFeed] + a.String();
    SplitPipe2Join(marker, payload);
    marker + "|" + payload
  }

  /**
   * Data matches an action exactly when the text before its first '|' is
   * the form feed and the action's name.
   */
  lemma DataMatchesSplit(a: CallbackAction, data: string)
    ensures a.DataMatches(data) <==> SplitPipe2(data)[0] == [FormFeed] + a.String()
  {
    var marker := [FormFeed] + a.String();
    assert '|' !in marker;
    if HasPrefix(data, marker + "|") {
      var rest := data[|marker| + 1..];
      assert data == marker + "|" + rest;
      SplitPipe2Join(marker, rest);
    }
    var r := SplitPipe2(data);
    if |r| == 2 && r[0] == marker {
      assert data[..|marker + "|"|] == marker + "|";
    }
  }

  /** Matching data always starts with the form feed. */
  lemma MatchStartsWithFormFeed(a: CallbackAction, data: string)
    ensures a.DataMatches(data) ==> |data| > 0 && data[0] == FormFeed
  {
    if a.DataMatches(data) {
      var marker := [FormFeed] + a.String();
      if data != marker {
        assert data[..|marker + "|"|][0] == FormFeed;
      }
    }
  }

  /** A button's data matches its own action, whatever the payload. */
  lemma ButtonDataMatches(a: CallbackAction, payload: string)
    ensures a.DataMatches(ButtonData(a, payload))
  {
    var marker := [FormFeed] + a.String();
    assert ButtonData(a, payload)[..|marker + "|"|] == marker + "|";
  }

  /** Matching data repeats the action's name at every position of it. */
  lemma MatchedNameChar(a: CallbackAction, data: string, k: nat)
    requires 0 < k <= |a.String()|
    ensures a.DataMatches(data) ==> k < |data| && data[k] == a.String()[k - 1]
  {
    var marker := [FormFeed] + a.String();
    if a.DataMatches(data) && data != marker {
      assert data[..|marker + "|"|][k] == (marker + "|")[k];
    }
  }

  /** No callback data matches both actions. */
  lemma NoDataMatchesBoth(data: string)
    ensures !(NewMemberAccept.DataMatches(data) && NewMemberKick.DataMatches(data))
  {
    MatchedNameChar(NewMemberAccept, data, 12);
    MatchedNameChar(NewMemberKick, data, 12);
  }

  /** A longer action name sharing the prefix does not match. */
  lemma ExtendedNameNoMatch()
    ensures !NewMemberAccept.DataMatches([FormFeed] + "new_member_acceptX")
  {
    var data := [FormFeed] + "new_member_acceptX";
    var marker := [FormFeed] + NewMemberAccept.String();
    assert |data| == |marker| + 1;
    assert data[|marker|] == 'X';
    assert data != marker;
    assert (marker + "|")[|marker|] == '|';
  }
}
