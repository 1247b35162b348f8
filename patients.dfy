/** The patient directory's status badge: the colour chosen from the
    latest diagnosis text by substring tests, and the text shown. */
module PatientsPage {
  import opened Common
  import Analyze

  datatype Badge = Emerald | Rose | Amber

  /** "Normal" is tested first, then "Severe"; anything else, including a
      missing or empty status, is amber. */
  function BadgeFor(status: Option<string>): (b: Badge)
    ensures b == Emerald <==> status.Some? && Includes(status.value, "Normal")
    ensures b == Rose <==> status.Some? && !Includes(status.value, "Normal") && Includes(status.value, "Severe")
    ensures (status.None? || status.value == "") ==> b == Amber
  {
    if status.Some? && status.value != "" && Includes(status.value, "Normal") then Emerald
    else if status.Some? && status.value != "" && Includes(status.value, "Severe") then Rose
    else Amber
  }

  /** `status || "Pending"`. */
  function StatusText(status: Option<string>): (text: string)
    ensures status.Some? && status.value != "" ==> text == status.value
    ensures status.None? || status.value == "" ==> text == "Pending"
    ensures text != ""
  {
    if status.Some? && status.value != "" then status.value else "Pending"
  }

  /** A text without the first letter of `sub` does not contain it. */
  lemma LacksInitial(a: string, sub: string)
    requires |sub| > 0
    requires forall k :: 0 <= k < |a| ==> a[k] != sub[0]
    ensures !Includes(a, sub)
  {
    IncludesSkipsHead(a, "", sub);
    assert a + "" == a;
  }

  lemma NormalLabelIsEmerald()
    ensures Includes("No DR (Normal)", "Normal")
  {
    var text := "No DR (Normal)";
    assert text == "No DR (" + "Normal" + ")";
    assert text[7..13] == "Normal";
    assert OccursAt(text, "Normal", 7);
    IncludesIffOccurs(text, "Normal");
  }

  /** A label with neither "Normal" nor "Severe" in it. */
  lemma OtherLabelIsAmber(text: string)
    requires forall k :: 0 <= k < |text| ==> text[k] != 'N' && text[k] != 'S'
    ensures BadgeFor(Some(text)) == Amber
  {
    LacksInitial(text, "Normal");
    LacksInitial(text, "Severe");
  }

  /** Over the five grade labels: the normal grade is emerald, the severe
      grade rose, and the mild, moderate and proliferative grades amber. */
  lemma GradeBadge(grade: int)
    requires 0 <= grade <= 4
    ensures BadgeFor(Analyze.DrLabel(grade)) ==
      if grade == 0 then Emerald else if grade == 3 then Rose else Amber
    ensures StatusText(Analyze.DrLabel(grade)) == Analyze.DrLabel(grade).value
  {
    var text := Analyze.DrLabel(grade).value;
    if grade == 0 {
      NormalLabelIsEmerald();
    } else if grade == 3 {
      LacksInitial(text, "Normal");
      assert "Severe" <= text;
    } else {
      OtherLabelIsAmber(text);
    }
  }
}
