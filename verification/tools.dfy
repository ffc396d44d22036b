/**
 * Tool settings: the kind of the next shape and the pen and brush it will be
 * created with, changed by menu selections.
 *
 * The menu handler of ML5.Draw is a run of independent `if` statements,
 * each comparing the selected "Title/Item" string with one label and
 * assigning one setting. Each branch assigns exactly one of the three
 * settings, so the run splits into three runs, one per setting (the Shape,
 * Brush and Pen branches, each in the order the C++ code tests them). Each run is modelled
 * literally (RunRules) next to a first-match lookup (Lookup) that says what
 * the run means when its labels are distinct.
 */
module Tools {
  import opened Results
  import opened Shapes

  datatype ToolSettings = ToolSettings(nextShape: Kind, pen: Pen, brush: Brush)

  /** One `if (item == key) { setting = value; }` branch of the menu handler. */
  datatype Rule<T> = Rule(key: string, value: T)

  /** The value found, or the default when there is none. */
  function OrElse<T>(found: Option<T>, default: T): T {
    match found
    case None => default
    case Some(v) => v
  }

  /** The Shape branches of on_menu (identical in draw_application.h and main.cpp). */
  const ShapeRules: seq<Rule<Kind>> := [
    Rule("Shape/Line", Line),
    Rule("Shape/Ellipse", Ellipse),
    Rule("Shape/Rectangle", Rectangle)
  ]

  /** The Brush branches of on_menu in draw_application.h. */
  const BrushRules: seq<Rule<Brush>> := [
    Rule("Brush/Blue", Brush(Blue)),
    Rule("Brush/Red", Brush(Red)),
    Rule("Brush/Green", Brush(Green)),
    Rule("Brush/White", Brush(White)),
    Rule("Brush/Light Gray", Brush(LightGrey)),
    Rule("Brush/Black", Brush(Black))
  ]

  /** The Pen branches of on_menu in draw_application.h. */
  const PenRules: seq<Rule<Pen>> := [
    Rule("Pen/Blue", Pen(Blue)),
    Rule("Pen/Red", Pen(Red)),
    Rule("Pen/Green", Pen(Green)),
    Rule("Pen/White", Pen(White)),
    Rule("Pen/Light Gray", Pen(LightGrey)),
    Rule("Pen/Black", Pen(Black))
  ]

  /** The Brush branches of on_menu in main.cpp: light grey is tested as "Light Grey". */
  const SingleFileBrushRules: seq<Rule<Brush>> := [
    Rule("Brush/Blue", Brush(Blue)),
    Rule("Brush/Red", Brush(Red)),
    Rule("Brush/Green", Brush(Green)),
    Rule("Brush/White", Brush(White)),
    Rule("Brush/Light Grey", Brush(LightGrey)),
    Rule("Brush/Black", Brush(Black))
  ]

  /** The Pen branches of on_menu in main.cpp: there is no light grey pen. */
  const SingleFilePenRules: seq<Rule<Pen>> := [
    Rule("Pen/Blue", Pen(Blue)),
    Rule("Pen/Red", Pen(Red)),
    Rule("Pen/Green", Pen(Green)),
    Rule("Pen/White", Pen(White)),
    Rule("Pen/Black", Pen(Black))
  ]

  /** The text of a colour's entry in the Brush and Pen menus, mnemonic marker removed. */
  function ColourLabel(c: Colour): string {
    match c
    case Blue => "Blue"
    case Green => "Green"
    case Red => "Red"
    case White => "White"
    case LightGrey => "Light Gray"
    case Black => "Black"
  }

  /** The text of a kind's entry in the Shape menu. */
  function KindLabel(k: Kind): string {
    match k
    case Line => "Line"
    case Ellipse => "Ellipse"
    case Rectangle => "Rectangle"
  }

  /**
   * The branches in order: each one whose key equals the item assigns its
   * value. The setting either keeps its value or takes the value of a
   * branch keyed by the item.
   */
  function RunRules<T>(current: T, item: string, rules: seq<Rule<T>>): (r: T)
    ensures r == current || exists i :: 0 <= i < |rules| && rules[i].key == item && rules[i].value == r
    decreases |rules|
  {
    if |rules| == 0 then current
    else
      var next := if item == rules[0].key then rules[0].value else current;
      var r := RunRules(next, item, rules[1..]);
      assert forall i :: 1 <= i < |rules| ==> rules[i] == rules[1..][i - 1];
      r
  }

  /** The value of the first rule whose key is item, if any. */
  function Lookup<T>(item: string, rules: seq<Rule<T>>): (r: Option<T>)
    ensures r.None? <==> forall i :: 0 <= i < |rules| ==> rules[i].key != item
    ensures r.Some? ==> exists i :: 0 <= i < |rules| && rules[i].key == item && rules[i].value == r.value
    decreases |rules|
  {
    if |rules| == 0 then None
    else if rules[0].key == item then Some(rules[0].value)
    else
      var r := Lookup(item, rules[1..]);
      assert forall i :: 1 <= i < |rules| ==> rules[i] == rules[1..][i - 1];
      r
  }

  ghost predicate DistinctKeys<T>(rules: seq<Rule<T>>) {
    forall i, j :: 0 <= i < j < |rules| ==> rules[i].key != rules[j].key
  }

  /** Running rules whose keys all differ from the item assigns nothing. */
  lemma {:induction false} RunRulesMiss<T>(current: T, item: string, rules: seq<Rule<T>>)
    requires forall i :: 0 <= i < |rules| ==> rules[i].key != item
    ensures RunRules(current, item, rules) == current
    decreases |rules|
  {
    if |rules| > 0 {
      RunRulesMiss(current, item, rules[1..]);
    }
  }

  /**
   * With distinct keys the run of independent ifs is a table lookup: at
   * most one branch fires, the one keyed by the item.
   */
  lemma {:induction false} RunRulesIsLookup<T>(current: T, item: string, rules: seq<Rule<T>>)
    requires DistinctKeys(rules)
    ensures RunRules(current, item, rules) == OrElse(Lookup(item, rules), current)
    decreases |rules|
  {
    if |rules| > 0 {
      assert DistinctKeys(rules[1..]) by {
        forall i, j | 0 <= i < j < |rules[1..]|
          ensures rules[1..][i].key != rules[1..][j].key
        {
          assert rules[1..][i] == rules[i + 1] && rules[1..][j] == rules[j + 1];
        }
      }
      if item == rules[0].key {
        forall i | 0 <= i < |rules[1..]|
          ensures rules[1..][i].key != item
        {
          assert rules[1..][i] == rules[i + 1];
        }
        RunRulesMiss(rules[0].value, item, rules[1..]);
      } else {
        RunRulesIsLookup(current, item, rules[1..]);
      }
    }
  }

  /** With distinct keys, looking up a rule's own key finds that rule. */
  lemma LookupAt<T>(rules: seq<Rule<T>>, j: nat)
    requires DistinctKeys(rules)
    requires j < |rules|
    ensures Lookup(rules[j].key, rules) == Some(rules[j].value)
  {
    var r := Lookup(rules[j].key, rules);
    var i :| 0 <= i < |rules| && rules[i].key == rules[j].key && rules[i].value == r.value;
    assert i == j;
  }

  /** Every key of the rules starts with the given character (the menu title's initial). */
  ghost predicate KeysStartWith<T>(rules: seq<Rule<T>>, c: char) {
    forall i :: 0 <= i < |rules| ==> |rules[i].key| > 0 && rules[i].key[0] == c
  }

  /** An item that does not start with the rules' common initial matches none of them. */
  lemma OtherInitialMisses<T>(current: T, item: string, rules: seq<Rule<T>>, c: char)
    requires KeysStartWith(rules, c)
    requires |item| > 0 && item[0] != c
    ensures Lookup(item, rules) == None
    ensures RunRules(current, item, rules) == current
  {
    forall i | 0 <= i < |rules|
      ensures rules[i].key != item
    {
      assert rules[i].key[0] == c;
    }
    RunRulesMiss(current, item, rules);
  }

  lemma ShapeRulesWellFormed()
    ensures DistinctKeys(ShapeRules) && KeysStartWith(ShapeRules, 'S')
  {
  }

  lemma BrushRulesWellFormed()
    ensures DistinctKeys(BrushRules) && KeysStartWith(BrushRules, 'B')
  {
  }

  lemma PenRulesWellFormed()
    ensures DistinctKeys(PenRules) && KeysStartWith(PenRules, 'P')
  {
  }

  /**
   * on_menu of draw_application.h, one run of branches per setting. A setting
   * changes only to the value of a branch of its own menu keyed by the item.
   */
  function OnMenu(t: ToolSettings, item: string): (r: ToolSettings)
    ensures r.nextShape == t.nextShape
            || exists i :: 0 <= i < |ShapeRules| && ShapeRules[i] == Rule(item, r.nextShape)
    ensures r.pen == t.pen || exists i :: 0 <= i < |PenRules| && PenRules[i] == Rule(item, r.pen)
    ensures r.brush == t.brush || exists i :: 0 <= i < |BrushRules| && BrushRules[i] == Rule(item, r.brush)
  {
    ToolSettings(
      RunRules(t.nextShape, item, ShapeRules),
      RunRules(t.pen, item, PenRules),
      RunRules(t.brush, item, BrushRules))
  }

  /**
   * on_menu of main.cpp: the same Shape branches, its own Brush and Pen
   * branches. A setting changes only to the value of a branch of its own
   * menu keyed by the item.
   */
  function SingleFileOnMenu(t: ToolSettings, item: string): (r: ToolSettings)
    ensures r.nextShape == t.nextShape
            || exists i :: 0 <= i < |ShapeRules| && ShapeRules[i] == Rule(item, r.nextShape)
    ensures r.pen == t.pen
            || exists i :: 0 <= i < |SingleFilePenRules| && SingleFilePenRules[i] == Rule(item, r.pen)
    ensures r.brush == t.brush
            || exists i :: 0 <= i < |SingleFileBrushRules| && SingleFileBrushRules[i] == Rule(item, r.brush)
  {
    ToolSettings(
      RunRules(t.nextShape, item, ShapeRules),
      RunRules(t.pen, item, SingleFilePenRules),
      RunRules(t.brush, item, SingleFileBrushRules))
  }

  /**
   * The menu handler of draw_application.h selects at most one setting,
   * the one its item names; an item it does not know (every Background
   * item among them) leaves the settings as they are.
   */
  lemma OnMenuIsLookup(t: ToolSettings, item: string)
    ensures OnMenu(t, item) == ToolSettings(
              OrElse(Lookup(item, ShapeRules), t.nextShape),
              OrElse(Lookup(item, PenRules), t.pen),
              OrElse(Lookup(item, BrushRules), t.brush))
    ensures || (Lookup(item, ShapeRules).None? && Lookup(item, PenRules).None?)
            || (Lookup(item, ShapeRules).None? && Lookup(item, BrushRules).None?)
            || (Lookup(item, PenRules).None? && Lookup(item, BrushRules).None?)
  {
    ShapeRulesWellFormed();
    BrushRulesWellFormed();
    PenRulesWellFormed();
    RunRulesIsLookup(t.nextShape, item, ShapeRules);
    RunRulesIsLookup(t.pen, item, PenRules);
    RunRulesIsLookup(t.brush, item, BrushRules);
    if |item| > 0 {
      if item[0] != 'S' {
        OtherInitialMisses(t.nextShape, item, ShapeRules, 'S');
      }
      if item[0] != 'P' {
        OtherInitialMisses(t.pen, item, PenRules, 'P');
      }
    } else {
      assert Lookup(item, ShapeRules).None?;
      assert Lookup(item, PenRules).None?;
    }
  }

  /** The j-th Shape branch's item sets the next kind to its value and nothing else. */
  lemma ShapeRuleTakesEffect(t: ToolSettings, j: nat)
    requires j < |ShapeRules|
    ensures OnMenu(t, ShapeRules[j].key) == t.(nextShape := ShapeRules[j].value)
  {
    var item := ShapeRules[j].key;
    ShapeRulesWellFormed();
    BrushRulesWellFormed();
    PenRulesWellFormed();
    LookupAt(ShapeRules, j);
    RunRulesIsLookup(t.nextShape, item, ShapeRules);
    OtherInitialMisses(t.pen, item, PenRules, 'P');
    OtherInitialMisses(t.brush, item, BrushRules, 'B');
  }

  /** The j-th Brush branch's item sets the brush to its value and nothing else. */
  lemma BrushRuleTakesEffect(t: ToolSettings, j: nat)
    requires j < |BrushRules|
    ensures OnMenu(t, BrushRules[j].key) == t.(brush := BrushRules[j].value)
  {
    var item := BrushRules[j].key;
    ShapeRulesWellFormed();
    BrushRulesWellFormed();
    PenRulesWellFormed();
    LookupAt(BrushRules, j);
    RunRulesIsLookup(t.brush, item, BrushRules);
    OtherInitialMisses(t.nextShape, item, ShapeRules, 'S');
    OtherInitialMisses(t.pen, item, PenRules, 'P');
  }

  /** The j-th Pen branch's item sets the pen to its value and nothing else. */
  lemma PenRuleTakesEffect(t: ToolSettings, j: nat)
    requires j < |PenRules|
    ensures OnMenu(t, PenRules[j].key) == t.(pen := PenRules[j].value)
  {
    var item := PenRules[j].key;
    ShapeRulesWellFormed();
    BrushRulesWellFormed();
    PenRulesWellFormed();
    LookupAt(PenRules, j);
    RunRulesIsLookup(t.pen, item, PenRules);
    OtherInitialMisses(t.nextShape, item, ShapeRules, 'S');
    OtherInitialMisses(t.brush, item, BrushRules, 'B');
  }

  /** The position of a kind's branch among the Shape branches. */
  function KindBranch(k: Kind): (j: nat)
    ensures j < |ShapeRules| && ShapeRules[j] == Rule("Shape/" + KindLabel(k), k)
  {
    match k
    case Line => 0
    case Ellipse => 1
    case Rectangle => 2
  }

  /** The position of a colour's branch among the Brush branches, and among the Pen branches. */
  function ColourBranch(c: Colour): (j: nat)
    ensures j < |BrushRules| && BrushRules[j] == Rule("Brush/" + ColourLabel(c), Brush(c))
    ensures j < |PenRules| && PenRules[j] == Rule("Pen/" + ColourLabel(c), Pen(c))
  {
    match c
    case Blue => 0
    case Red => 1
    case Green => 2
    case White => 3
    case LightGrey => 4
    case Black => 5
  }

  /** Choosing a kind in the Shape menu sets the next kind and nothing else. */
  lemma ShapeEntryTakesEffect(t: ToolSettings, k: Kind)
    ensures OnMenu(t, "Shape/" + KindLabel(k)) == t.(nextShape := k)
  {
    ShapeRuleTakesEffect(t, KindBranch(k));
  }

  /** Choosing a colour in the Brush menu sets the brush and nothing else. */
  lemma BrushEntryTakesEffect(t: ToolSettings, c: Colour)
    ensures OnMenu(t, "Brush/" + ColourLabel(c)) == t.(brush := Brush(c))
  {
    BrushRuleTakesEffect(t, ColourBranch(c));
  }

  /** Choosing a colour in the Pen menu sets the pen and nothing else. */
  lemma PenEntryTakesEffect(t: ToolSettings, c: Colour)
    ensures OnMenu(t, "Pen/" + ColourLabel(c)) == t.(pen := Pen(c))
  {
    PenRuleTakesEffect(t, ColourBranch(c));
  }

  lemma SingleFileBrushRulesWellFormed()
    ensures DistinctKeys(SingleFileBrushRules) && KeysStartWith(SingleFileBrushRules, 'B')
  {
  }

  lemma SingleFilePenRulesWellFormed()
    ensures DistinctKeys(SingleFilePenRules) && KeysStartWith(SingleFilePenRules, 'P')
  {
  }

  /**
   * The menu handler of main.cpp, too, selects at most one setting, the one
   * its item names, and leaves the settings alone for an item it does not know.
   */
  lemma SingleFileOnMenuIsLookup(t: ToolSettings, item: string)
    ensures SingleFileOnMenu(t, item) == ToolSettings(
              OrElse(Lookup(item, ShapeRules), t.nextShape),
              OrElse(Lookup(item, SingleFilePenRules), t.pen),
              OrElse(Lookup(item, SingleFileBrushRules), t.brush))
    ensures || (Lookup(item, ShapeRules).None? && Lookup(item, SingleFilePenRules).None?)
            || (Lookup(item, ShapeRules).None? && Lookup(item, SingleFileBrushRules).None?)
            || (Lookup(item, SingleFilePenRules).None? && Lookup(item, SingleFileBrushRules).None?)
  {
    ShapeRulesWellFormed();
    SingleFileBrushRulesWellFormed();
    SingleFilePenRulesWellFormed();
    RunRulesIsLookup(t.nextShape, item, ShapeRules);
    RunRulesIsLookup(t.pen, item, SingleFilePenRules);
    RunRulesIsLookup(t.brush, item, SingleFileBrushRules);
    if |item| > 0 {
      if item[0] != 'S' {
        OtherInitialMisses(t.nextShape, item, ShapeRules, 'S');
      }
      if item[0] != 'P' {
        OtherInitialMisses(t.pen, item, SingleFilePenRules, 'P');
      }
    } else {
      assert Lookup(item, ShapeRules).None?;
      assert Lookup(item, SingleFilePenRules).None?;
    }
  }

  /** In main.cpp, the item of each Shape branch sets the next kind and nothing else. */
  lemma SingleFileShapeRuleTakesEffect(t: ToolSettings, j: nat)
    requires j < |ShapeRules|
    ensures SingleFileOnMenu(t, ShapeRules[j].key) == t.(nextShape := ShapeRules[j].value)
  {
    var item := ShapeRules[j].key;
    ShapeRulesWellFormed();
    SingleFileBrushRulesWellFormed();
    SingleFilePenRulesWellFormed();
    LookupAt(ShapeRules, j);
    RunRulesIsLookup(t.nextShape, item, ShapeRules);
    OtherInitialMisses(t.pen, item, SingleFilePenRules, 'P');
    OtherInitialMisses(t.brush, item, SingleFileBrushRules, 'B');
  }

  /** In main.cpp, the item of each Brush branch sets that brush and nothing else. */
  lemma SingleFileBrushRuleTakesEffect(t: ToolSettings, j: nat)
    requires j < |SingleFileBrushRules|
    ensures SingleFileOnMenu(t, SingleFileBrushRules[j].key) == t.(brush := SingleFileBrushRules[j].value)
  {
    var item := SingleFileBrushRules[j].key;
    ShapeRulesWellFormed();
    SingleFileBrushRulesWellFormed();
    SingleFilePenRulesWellFormed();
    LookupAt(SingleFileBrushRules, j);
    RunRulesIsLookup(t.brush, item, SingleFileBrushRules);
    OtherInitialMisses(t.nextShape, item, ShapeRules, 'S');
    OtherInitialMisses(t.pen, item, SingleFilePenRules, 'P');
  }

  /** In main.cpp, the item of each Pen branch sets that pen and nothing else. */
  lemma SingleFilePenRuleTakesEffect(t: ToolSettings, j: nat)
    requires j < |SingleFilePenRules|
    ensures SingleFileOnMenu(t, SingleFilePenRules[j].key) == t.(pen := SingleFilePenRules[j].value)
  {
    var item := SingleFilePenRules[j].key;
    ShapeRulesWellFormed();
    SingleFileBrushRulesWellFormed();
    SingleFilePenRulesWellFormed();
    LookupAt(SingleFilePenRules, j);
    RunRulesIsLookup(t.pen, item, SingleFilePenRules);
    OtherInitialMisses(t.nextShape, item, ShapeRules, 'S');
    OtherInitialMisses(t.brush, item, SingleFileBrushRules, 'B');
  }

  /** The position of a colour's branch among the Pen branches of main.cpp, which have no light grey. */
  function SingleFilePenBranch(c: Colour): (j: nat)
    requires c != LightGrey
    ensures j < |SingleFilePenRules| && SingleFilePenRules[j] == Rule("Pen/" + ColourLabel(c), Pen(c))
  {
    match c
    case Blue => 0
    case Red => 1
    case Green => 2
    case White => 3
    case Black => 4
  }

  /** In main.cpp, choosing a kind in the Shape menu sets the next kind and nothing else. */
  lemma SingleFileShapeEntryTakesEffect(t: ToolSettings, k: Kind)
    ensures SingleFileOnMenu(t, "Shape/" + KindLabel(k)) == t.(nextShape := k)
  {
    SingleFileShapeRuleTakesEffect(t, KindBranch(k));
  }

  /** In main.cpp, every Brush colour but light grey sets the brush and nothing else. */
  lemma SingleFileBrushEntryTakesEffect(t: ToolSettings, c: Colour)
    requires c != LightGrey
    ensures SingleFileOnMenu(t, "Brush/" + ColourLabel(c)) == t.(brush := Brush(c))
  {
    var j := ColourBranch(c);
    assert SingleFileBrushRules[j] == BrushRules[j];
    SingleFileBrushRuleTakesEffect(t, j);
  }

  /** In main.cpp, every Pen colour it has a branch for sets the pen and nothing else. */
  lemma SingleFilePenEntryTakesEffect(t: ToolSettings, c: Colour)
    requires c != LightGrey
    ensures SingleFileOnMenu(t, "Pen/" + ColourLabel(c)) == t.(pen := Pen(c))
  {
    SingleFilePenRuleTakesEffect(t, SingleFilePenBranch(c));
  }

  /** No Brush branch of main.cpp is keyed by the Brush menu's light grey entry. */
  lemma SingleFileBrushRulesLackLightGray()
    ensures forall i :: 0 <= i < |SingleFileBrushRules| ==> SingleFileBrushRules[i].key != "Brush/Light Gray"
  {
    assert SingleFileBrushRules[4].key[14] != "Brush/Light Gray"[14];
  }

  /**
   * main.cpp builds its Brush menu with a "Light Gray" entry, but its
   * handler compares against "Brush/Light Grey": selecting the entry leaves
   * every setting unchanged, where the handler of draw_application.h selects
   * the light grey brush.
   */
  lemma SingleFileLightGrayBrushIgnored(t: ToolSettings)
    ensures SingleFileOnMenu(t, "Brush/" + ColourLabel(LightGrey)) == t
    ensures OnMenu(t, "Brush/" + ColourLabel(LightGrey)) == t.(brush := Brush(LightGrey))
  {
    var item := "Brush/" + ColourLabel(LightGrey);
    assert item == BrushRules[4].key;
    SingleFileBrushRulesLackLightGray();
    RunRulesMiss(t.brush, item, SingleFileBrushRules);
    ShapeRulesWellFormed();
    assert KeysStartWith(SingleFilePenRules, 'P');
    OtherInitialMisses(t.nextShape, item, ShapeRules, 'S');
    OtherInitialMisses(t.pen, item, SingleFilePenRules, 'P');
    BrushRuleTakesEffect(t, 4);
  }
}
