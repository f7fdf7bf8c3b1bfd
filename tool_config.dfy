/** The tool registry: one template command per configurable tool. New
    commands are copies of a template; the template itself is handed out
    for settings changes, so those changes reach every later copy. */
module ToolConfigs {
  import opened Graphics
  import opened Commands

  /** The tools that have a template, in the order they are registered. */
  const ConfigOrder: seq<CommandType> := [Select, Draw, Fill, Erase, Scroll, Zoom]

  /** Whether `t` has a template: every tool except the clipboard
      commands, which are created directly. */
  predicate IsRegistered(t: CommandType) {
    t != Cut && t != Copy && t != Paste
  }

  /** Where a registered tool sits in ConfigOrder. */
  function ConfigOrderIndex(t: CommandType): (i: nat)
    requires IsRegistered(t)
    ensures i < |ConfigOrder| && ConfigOrder[i] == t
  {
    match t
    case Select => 0
    case Draw => 1
    case Fill => 2
    case Erase => 3
    case Scroll => 4
    case Zoom => 5
  }

  class ToolConfig {
    var configs: map<CommandType, Command>
    /** The template objects. */
    ghost var templates: set<Command>

    /** Exactly the registered tools have a template, each of its own
        variant; distinct tools therefore have distinct templates. */
    ghost predicate Valid()
      reads this
    {
      && (forall t :: t in configs <==> IsRegistered(t))
      && forall t :: t in configs ==> configs[t].kind == t && configs[t] in templates
    }

    /** Registers the default templates: a black Draw of width
        `defaultDrawWidth`, a black Fill aimed at the origin, and an Erase
        four times as wide as Draw. No template has a stroke of its own. */
    constructor (defaultDrawWidth: int)
      ensures Valid()
      ensures fresh(templates)
      ensures configs[Draw].color == Black && configs[Draw].width == defaultDrawWidth
      ensures configs[Draw].lines == []
      ensures configs[Fill].color == Black && configs[Fill].targetPos == Point(0, 0)
      ensures configs[Erase].width == 4 * defaultDrawWidth && configs[Erase].lines == []
      ensures forall t :: t in configs ==> configs[t].lines == []
    {
      var m: map<CommandType, Command> := map[];
      ghost var ts: set<Command> := {};
      for i := 0 to |ConfigOrder|
        invariant m.Keys == set j | 0 <= j < i :: ConfigOrder[j]
        invariant forall t :: t in m ==> m[t].kind == t && m[t] in ts && m[t].lines == []
        invariant fresh(ts)
        invariant Draw in m ==> m[Draw].color == Black && m[Draw].width == defaultDrawWidth && m[Draw].lines == []
        invariant Fill in m ==> m[Fill].color == Black && m[Fill].targetPos == Point(0, 0)
        invariant Erase in m ==> m[Erase].width == 4 * defaultDrawWidth && m[Erase].lines == []
      {
        var cmdType := ConfigOrder[i];
        var cmdConfig: Command;
        if cmdType == Select {
          cmdConfig := new Command.NewSelect();
        } else if cmdType == Draw {
          cmdConfig := new Command.NewDraw(Black, defaultDrawWidth);
        } else if cmdType == Fill {
          cmdConfig := new Command.NewFill(Black, Point(0, 0));
        } else if cmdType == Erase {
          cmdConfig := new Command.NewErase(defaultDrawWidth * 4);
        } else if cmdType == Scroll {
          cmdConfig := new Command.NewScroll();
        } else {
          // Zoom, the last entry of ConfigOrder
          cmdConfig := new Command.NewZoom();
        }
        m := m[cmdType := cmdConfig];
        ts := ts + {cmdConfig};
      }
      assert forall t :: IsRegistered(t) ==> t == ConfigOrder[ConfigOrderIndex(t)];
      configs := m;
      templates := ts;
    }

    /** A new command: a copy of the template for `t`. */
    method CreateCommand(t: CommandType) returns (c: Command)
      requires Valid() && t in configs
      ensures fresh(c) && c.kind == t && c.IsCloneOf(configs[t])
    {
      c := configs[t].Clone();
    }

    /** The template for `t` itself, or null for a tool without one. */
    method GetConfig(t: CommandType) returns (c: Command?)
      requires Valid()
      ensures IsRegistered(t) ==> c == configs[t] && c.kind == t
      ensures !IsRegistered(t) ==> c == null
    {
      if t in configs {
        c := configs[t];
      } else {
        c := null;
      }
    }
  }
}
