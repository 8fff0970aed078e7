/**
 * The decisions of SMASH's OSCAR output (oscaroutput.cc): which format and
 * which contents an output gets from the configuration (create_oscar_output,
 * create_select_format), the file name, and which blocks the output writes at
 * the start and at the end of an event.
 *
 * The file is modelled as the sequence of blocks written to it; the text of
 * each line (fprintf) is not modelled.
 */
module OscarOutputs {
  import opened Outcomes

  /** The three OSCAR formats (OscarOutputFormat). */
  datatype OscarFormat = Format1999 | Format2013 | Format2013Extended

  /** The content bits of the Contents template parameter. */
  datatype ContentFlag =
    | Timesteps | AtEventstart | ParticlesAtEventend | ParticlesAtEventendIfNotEmpty | Interactions | ParticlesIC

  /** OutputOnlyFinal */
  datatype OnlyFinal = Yes | IfNotEmpty | No

  /** The fields of OutputParameters the factory reads. */
  datatype OutputParameters = OutputParameters(
    partOnlyFinal: OnlyFinal, partExtended: bool,
    collExtended: bool, collPrintStartEnd: bool,
    dilExtended: bool, photonsExtended: bool, icExtended: bool)

  /** An OscarOutput<Format, Contents> as created, with its name. */
  datatype OscarConfig = OscarConfig(format: OscarFormat, contents: set<ContentFlag>, name: string)

  datatype OscarError = UnknownFormat | UnknownContent

  /** What the factory returns: the output or the error it throws, and whether it logged the warning that there is no extended Oscar1999 format. */
  datatype Creation = Creation(output: Result<OscarConfig, OscarError>, warnedNoExtended1999: bool)

  /**
   * create_select_format<Contents>: the extended flag is the collisions' one
   * when the Interactions bit is set and the particles' one otherwise; the
   * 1999 format has no extended variant, so asking for one warns and falls
   * back to plain 1999.
   */
  function CreateSelectFormat(modernFormat: bool, contents: set<ContentFlag>, outPar: OutputParameters, name: string)
    : Creation
  {
    var extendedFormat := if Interactions in contents then outPar.collExtended else outPar.partExtended;
    if modernFormat && extendedFormat then Creation(Ok(OscarConfig(Format2013Extended, contents, name)), false)
    else if modernFormat && !extendedFormat then Creation(Ok(OscarConfig(Format2013, contents, name)), false)
    else if !modernFormat && !extendedFormat then Creation(Ok(OscarConfig(Format1999, contents, name)), false)
    else Creation(Ok(OscarConfig(Format1999, contents, name)), true)
  }

  /** The three outputs that choose their format themselves: 1999 with extended warns and creates nothing. */
  function SelfSelected(modernFormat: bool, extended: bool, contents: set<ContentFlag>, name: string): Creation
  {
    if modernFormat && extended then Creation(Ok(OscarConfig(Format2013Extended, contents, name)), false)
    else if modernFormat && !extended then Creation(Ok(OscarConfig(Format2013, contents, name)), false)
    else if !modernFormat && !extended then Creation(Ok(OscarConfig(Format1999, contents, name)), false)
    else Creation(Err(UnknownContent), true)
  }

  /** create_oscar_output: the format check, then the content table. */
  function CreateOscarOutput(format: string, content: string, outPar: OutputParameters): Creation
  {
    if format != "Oscar2013" && format != "Oscar1999" then Creation(Err(UnknownFormat), false)
    else
      var modernFormat := format == "Oscar2013";
      if content == "Particles" then
        if outPar.partOnlyFinal == Yes then
          CreateSelectFormat(modernFormat, {ParticlesAtEventend}, outPar, "particle_lists")
        else if outPar.partOnlyFinal == IfNotEmpty then
          CreateSelectFormat(modernFormat, {ParticlesAtEventendIfNotEmpty}, outPar, "particle_lists")
        else
          CreateSelectFormat(modernFormat, {Timesteps, AtEventstart, ParticlesAtEventend}, outPar, "particle_lists")
      else if content == "Collisions" then
        if outPar.collPrintStartEnd then
          CreateSelectFormat(modernFormat, {Interactions, AtEventstart, ParticlesAtEventend}, outPar, "full_event_history")
        else
          CreateSelectFormat(modernFormat, {Interactions}, outPar, "full_event_history")
      else if content == "Dileptons" then
        SelfSelected(modernFormat, outPar.dilExtended, {Interactions}, "Dileptons")
      else if content == "Photons" then
        SelfSelected(modernFormat, outPar.photonsExtended, {Interactions}, "Photons")
      else if content == "Initial_Conditions" then
        SelfSelected(modernFormat, outPar.icExtended, {ParticlesIC, AtEventstart}, "SMASH_IC")
      else Creation(Err(UnknownContent), false)
  }

  /** The extended flag that decides the format of a particles or collisions output. */
  function ExtendedFlag(content: string, outPar: OutputParameters): bool
  {
    if content == "Particles" then outPar.partExtended
    else if content == "Collisions" then outPar.collExtended
    else if content == "Dileptons" then outPar.dilExtended
    else if content == "Photons" then outPar.photonsExtended
    else outPar.icExtended
  }

  predicate KnownContent(content: string)
  {
    content in {"Particles", "Collisions", "Dileptons", "Photons", "Initial_Conditions"}
  }

  /**
   * An output is created exactly for a known format and content, except that
   * the dilepton, photon and initial-conditions outputs have no extended 1999
   * variant; a known format with an unknown content is an unknown-content
   * error.
   */
  lemma CreationIff(format: string, content: string, outPar: OutputParameters)
    ensures var c := CreateOscarOutput(format, content, outPar);
      var modern := format == "Oscar2013";
      var extended := ExtendedFlag(content, outPar);
      && (c.output.Ok? <==>
            (format == "Oscar2013" || format == "Oscar1999") && KnownContent(content)
            && !(!modern && extended && content in {"Dileptons", "Photons", "Initial_Conditions"}))
      && (c.output.Err? && (format == "Oscar2013" || format == "Oscar1999") ==> c.output.error == UnknownContent)
  {
    if format == "Oscar2013" {
    } else if format == "Oscar1999" {
    } else {
    }
  }

  /**
   * An output that is created has the 1999 format exactly when "Oscar1999"
   * was asked for, and the extended 2013 format exactly when "Oscar2013" was
   * asked for with the extended flag; the warning about the missing extended
   * 1999 format is logged exactly for a known content with the flag set.
   */
  lemma CreationFormat(format: string, content: string, outPar: OutputParameters)
    ensures var c := CreateOscarOutput(format, content, outPar);
      var modern := format == "Oscar2013";
      var extended := ExtendedFlag(content, outPar);
      && (c.output.Ok? ==>
            && (c.output.value.format == Format1999 <==> !modern)
            && (c.output.value.format == Format2013Extended <==> modern && extended))
      && (c.warnedNoExtended1999 <==> format == "Oscar1999" && KnownContent(content) && extended)
  {
    if format == "Oscar2013" {
    } else if format == "Oscar1999" {
    } else {
    }
  }

  /** The contents and names of the particles and collisions outputs. */
  lemma ParticlesAndCollisions(format: string, outPar: OutputParameters)
    requires format == "Oscar2013" || format == "Oscar1999"
    ensures var p := CreateOscarOutput(format, "Particles", outPar).output;
      && p.Ok? && p.value.name == "particle_lists"
      && (outPar.partOnlyFinal == Yes ==> p.value.contents == {ParticlesAtEventend})
      && (outPar.partOnlyFinal == IfNotEmpty ==> p.value.contents == {ParticlesAtEventendIfNotEmpty})
      && (outPar.partOnlyFinal == No ==> p.value.contents == {Timesteps, AtEventstart, ParticlesAtEventend})
    ensures var c := CreateOscarOutput(format, "Collisions", outPar).output;
      && c.Ok? && c.value.name == "full_event_history" && Interactions in c.value.contents
      && (AtEventstart in c.value.contents <==> outPar.collPrintStartEnd)
      && (c.value.contents - {Interactions} == if outPar.collPrintStartEnd then {AtEventstart, ParticlesAtEventend} else {})
  {
  }

  /** OscarOutput's file name: the output's name, ".oscar", and "1999" for the 1999 format. */
  function FileName(config: OscarConfig): string
  {
    config.name + ".oscar" + (if config.format == Format1999 then "1999" else "")
  }

  /** The file name ends in ".oscar1999" exactly for the 1999 format and in ".oscar" otherwise. */
  lemma FileNameSuffix(config: OscarConfig)
    ensures var f := FileName(config);
      && (config.format == Format1999 ==> |f| >= 10 && f[|f| - 10..] == ".oscar1999")
      && (config.format != Format1999 ==> |f| >= 6 && f[|f| - 6..] == ".oscar")
      && f[..|config.name|] == config.name
  {
  }

  // ---------------------------------------------------------------------
  // Writing events

  /** What at_eventend reads of EventInfo. */
  datatype EventInfo = EventInfo(emptyEvent: bool, impactParameter: real, imposeKinematicCut: bool)

  /** The blocks of an OSCAR file, without their text. */
  datatype Block =
    | EventStartHeader(event: int, count: nat)
    | EventEndHeader(event: int, count: nat)
    | ParticleLines(particles: seq<int>)
    | EventEndLine(event: int, impact: real, scattered: bool)
    | NullInteraction(event: int, impact: real)

  /** The blocks at_eventstart writes. */
  function StartBlocks(contents: set<ContentFlag>, particles: seq<int>, eventNumber: int): seq<Block>
  {
    if AtEventstart in contents then
      [EventStartHeader(eventNumber, |particles|)] + (if ParticlesIC !in contents then [ParticleLines(particles)] else [])
    else []
  }

  /** at_eventend writes the particles: at every event end, or at the end of events that were not empty. */
  predicate WritesParticlesAtEnd(contents: set<ContentFlag>, event: EventInfo)
  {
    ParticlesAtEventend in contents || (ParticlesAtEventendIfNotEmpty in contents && !event.emptyEvent)
  }

  /** The blocks at_eventend writes: the particles if due, then always the line closing the event. */
  function EndBlocks(format: OscarFormat, contents: set<ContentFlag>, particles: seq<int>, eventNumber: int,
                     event: EventInfo): seq<Block>
  {
    (if WritesParticlesAtEnd(contents, event)
     then [EventEndHeader(eventNumber, |particles|), ParticleLines(particles)] else [])
    + [if format == Format1999 then NullInteraction(eventNumber, event.impactParameter)
       else EventEndLine(eventNumber, event.impactParameter, !event.emptyEvent)]
  }

  /** An OscarOutput: its fixed format and contents, the current event and the blocks written so far. */
  class OscarOutput {
    const config: OscarConfig
    const fileName: string
    var currentEvent: int
    var written: seq<Block>

    constructor (c: OscarConfig)
      ensures config == c && fileName == FileName(c) && written == []
    {
      config := c;
      fileName := FileName(c);
      currentEvent := 0;
      written := [];
    }

    /** at_eventstart: records the event number and writes the start blocks. */
    method AtEventStart(particles: seq<int>, eventNumber: int)
      modifies this
      ensures currentEvent == eventNumber
      ensures written == old(written) + StartBlocks(config.contents, particles, eventNumber)
    {
      currentEvent := eventNumber;
      if AtEventstart in config.contents {
        written := written + [EventStartHeader(eventNumber, |particles|)];
        if ParticlesIC !in config.contents {
          written := written + [ParticleLines(particles)];
        }
      }
    }

    /**
     * at_eventend: writes the end blocks; an initial-conditions output warns
     * when particles have not yet crossed the hypersurface at the end.
     */
    method AtEventEnd(particles: seq<int>, eventNumber: int, event: EventInfo) returns (warned: bool)
      modifies this
      ensures currentEvent == old(currentEvent)
      ensures written == old(written) + EndBlocks(config.format, config.contents, particles, eventNumber, event)
      ensures warned <==> ParticlesIC in config.contents && |particles| != 0 && !event.imposeKinematicCut
    {
      if config.format == Format2013 || config.format == Format2013Extended {
        if ParticlesAtEventend in config.contents || (ParticlesAtEventendIfNotEmpty in config.contents && !event.emptyEvent) {
          written := written + [EventEndHeader(eventNumber, |particles|), ParticleLines(particles)];
        }
        written := written + [EventEndLine(eventNumber, event.impactParameter, !event.emptyEvent)];
      } else {
        if ParticlesAtEventend in config.contents || (ParticlesAtEventendIfNotEmpty in config.contents && !event.emptyEvent) {
          written := written + [EventEndHeader(eventNumber, |particles|), ParticleLines(particles)];
        }
        written := written + [NullInteraction(eventNumber, event.impactParameter)];
      }
      warned := false;
      if ParticlesIC in config.contents {
        if |particles| != 0 && !event.imposeKinematicCut {
          warned := true;
        }
      }
    }
  }

  /**
   * At the start of an event the particles are written exactly when the
   * AtEventstart bit is set and the ParticlesIC bit is not; at its end they
   * are written exactly when due, and the line closing the event is always the
   * last block.
   */
  lemma EventBlocks(format: OscarFormat, contents: set<ContentFlag>, particles: seq<int>, eventNumber: int, event: EventInfo)
    ensures ParticleLines(particles) in StartBlocks(contents, particles, eventNumber) <==>
      AtEventstart in contents && ParticlesIC !in contents
    ensures var e := EndBlocks(format, contents, particles, eventNumber, event);
      && (ParticleLines(particles) in e <==> WritesParticlesAtEnd(contents, event))
      && |e| >= 1 && (e[|e| - 1].EventEndLine? || e[|e| - 1].NullInteraction?)
      && (e[|e| - 1].NullInteraction? <==> format == Format1999)
  {
  }

  /**
   * An initial-conditions output created by the factory never writes its
   * particles at the start or the end of an event, and the particles output
   * with Only_Final IfNotEmpty writes them at the end exactly of non-empty events.
   */
  lemma FactoryOutputsWrite(format: string, outPar: OutputParameters, particles: seq<int>, eventNumber: int, event: EventInfo)
    ensures var ic := CreateOscarOutput(format, "Initial_Conditions", outPar).output;
      ic.Ok? ==>
        && StartBlocks(ic.value.contents, particles, eventNumber) == [EventStartHeader(eventNumber, |particles|)]
        && !WritesParticlesAtEnd(ic.value.contents, event)
    ensures var p := CreateOscarOutput(format, "Particles", outPar).output;
      p.Ok? && outPar.partOnlyFinal == IfNotEmpty ==>
        && StartBlocks(p.value.contents, particles, eventNumber) == []
        && (WritesParticlesAtEnd(p.value.contents, event) <==> !event.emptyEvent)
  {
  }
}
