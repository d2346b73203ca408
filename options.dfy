/** The formatter's configuration, taken as an immutable record for the
    whole run (loading, defaulting and version migration of the JSON file
    are outside the model). Integer options are non-negative. */
module Options {

  datatype Config = Config(
    fixIndents: bool,
    tabSize: nat,
    fixFileWidth: bool,
    fileWidth: nat,
    longCommentIndentAmount: nat,
    fixCapitalization: bool,
    fixBlankLines: bool,
    alignComments: bool,
    alignDataComments: bool,
    alignDataCommentsSeparately: bool,
    minCommentSpacing: nat,
    alignCodeSection: bool,
    minInstructionOperandSpacing: nat,
    addSpacesBetweenOperands: bool,
    alignDataSection: bool,
    alignCodeAndDataTogether: bool,
    minDataDirectiveSpacing: nat,
    minDataInitialValueSpacing: nat,
    addSpacesBetweenInitialValues: bool,
    alignHeaderComments: bool)

  /** The values written to a fresh configuration file (version 0.7). */
  const Default := Config(
    fixIndents := true,
    tabSize := 2,
    fixFileWidth := true,
    fileWidth := 80,
    longCommentIndentAmount := 2,
    fixCapitalization := true,
    fixBlankLines := true,
    alignComments := true,
    alignDataComments := true,
    alignDataCommentsSeparately := true,
    minCommentSpacing := 3,
    alignCodeSection := true,
    minInstructionOperandSpacing := 3,
    addSpacesBetweenOperands := true,
    alignDataSection := true,
    alignCodeAndDataTogether := false,
    minDataDirectiveSpacing := 2,
    minDataInitialValueSpacing := 2,
    addSpacesBetweenInitialValues := true,
    alignHeaderComments := true)
}
