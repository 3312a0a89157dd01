# Deleting atoms from a GROMACS topology, modelled in Dafny

`dele-itp-atom.py` edits a GROMACS `.itp` molecular topology in three steps:

1. It reads the file into a dictionary of sections (`parse_itp_file`). A first
   pass strips every line, skips blank lines and `;` comments, switches the
   current section at each `[ name ]` header and files every other line under
   the current section. A second pass decodes the known sections:
   - `moleculetype` becomes a small map.
   - `atoms` becomes a dictionary of records keyed by atom id, with the
     numeric fields coerced.
   - `bonds`, `pairs`, `angles` and `dihedrals` become lists of terms.
   - Any other section keeps its raw lines.
2. It deletes a list of atoms (`delete_atoms_and_renumber`):
   - It adds up the charges of the deleted atoms and spreads that sum over
     `atom_num` atoms.
   - It removes the deleted atoms.
   - It renumbers the survivors 1..N in ascending order of their old ids,
     setting `nr` and shifting each charge.
   - It drops every bonded term that mentions a deleted atom and rewrites the
     others through the old-to-new id mapping.
3. It writes the known sections back as fixed-width columns (`write_itp_file`).

The model follows the program's structure:

| file | module | models |
|---|---|---|
| `outcomes.dfy` | `Outcomes` | `Option`, `Result`, and the Python exceptions the program can raise (`KeyError`, `TypeError`, `ValueError`, `IndexError`, `ZeroDivisionError`, and `UnboundLocalError` as `NameError`) |
| `text.dfy` | `Text` | `str.strip`, `str.split()`, `' '.join`, `str(n)`, and `int()` / `float()` on decimal notation, over ASCII whitespace |
| `itp.dfy` | `Itp` | the in-memory topology: values, atom records, atom references, bonded terms |
| `classifier.dfy` | `Classifier` | the first pass of `parse_itp_file`: an imperative loop (`ParseSections`) proved equal to a filter over the file (`Sections`) |
| `reader.dfy` | `Reader` | the section decoders as pure functions, and the dispatch loop as a method |
| `deletion.dfy` | `Deletion` | `delete_atoms_and_renumber` as a function of the old topology: `Transform` returns the new topology and either `id_mapping` or the exception raised, including what Python had already changed in place when it raised |
| `editing.dfy` | `Editing` | the same operation as the program runs it: class `ItpData` whose methods update the sections in place, each loop a method proved against the functions of `Deletion` |
| `deletion_laws.dfy`, `charge.dfy`, `terms.dfy` | `DeletionLaws`, `ChargeLaws`, `TermLaws` | what the deletion promises: renumbering, the mapping, records carried, charge conservation, filtered terms and referential integrity |
| `writer.dfy` | `Writer` | `write_itp_file` as a function from a topology to its output lines, or to the exception that stops it |
| `writer_laws.dfy`, `output_laws.dfy` | `WriterLaws`, `OutputLaws` | round trips from the writer back through the classifier and the decoders, the order of the atoms block, and when the writer finishes |
| `atom_lines.dfy` | `AtomLineLaws` | what a written atom line holds, and how `parse_atoms` reads it back, before and after a renumbering |

Python's float rendering (`str(x)`, `{x:.6f}`) is a parameter of the writer (`Writer.Formats`). Charges are exact reals.

Where the code and the natural reading of the program differ, the model follows the code:
- The angle decoder admits a line of three words but reads index 3, so such a line raises `IndexError` and the whole parse fails (`Reader.TermOf`, `Reader.ParseItpFailsIff`). It is not skipped.
- The writer puts ` ; ` before a bond's comment and a single space before the comment of a pair, angle or dihedral. Only the angle decoder ever fills in a comment.
- A bond line of four words, or an angle line of five, is read with a single parameter. The writer indexes a second parameter for such a term and raises `IndexError` (`WriterLaws.SingleParameterNotWritten`).

## Model

| member | source | states |
|---|---|---|
| Classifier.LastClose | dele-itp-atom.py:21-23 | the greedy `.+` of the header pattern ends at the last `]` at index 2 or later: the result is such a `]` and no `]` follows it |
| Classifier.ParseSections | dele-itp-atom.py:9-29 | the loop over the lines builds exactly `Sections`: per section name, the stripped content lines whose most recent header names it |
| Classifier.ClassifyStep | dele-itp-atom.py:13-29 | one more line changes the current section only if it is a header, and appends its stripped text only to the current section's list, only when it is a data line and a section is in force |
| Classifier.SectionsAt | dele-itp-atom.py:28-29 | a name is a key of the dictionary exactly when some line was filed under it, and then maps to exactly those lines in file order |
| Classifier.CurrentIsHeaderName | dele-itp-atom.py:20-25 | the section in force is the starting one or the name of some header read |
| Classifier.BucketNamesHeader | dele-itp-atom.py:28-29 | a section that received lines was named by a header, unless it was in force from the start |
| Classifier.BucketHoldsDataLines | dele-itp-atom.py:14-29 | every stored line is the stripped form of an input line, is non-empty, does not start with `;` and is not a header |
| Classifier.CurrentAppend | dele-itp-atom.py:13-25 | reading `a` then `b` leaves in force what reading `b` from the section `a` left in force would |
| Classifier.BucketAppend | dele-itp-atom.py:28-29 | section lists only grow at the end: the lines filed while reading `a + b` are those of `a` followed by those of `b` |
| Classifier.NoHeaderNoSection | dele-itp-atom.py:10-29 | without a header, no line is stored and no section comes into force |
| Classifier.LinesBeforeFirstHeaderDropped | dele-itp-atom.py:10-29 | lines before the first header are dropped: the dictionary is that of the rest of the file |
| Classifier.HeaderResetsSection | dele-itp-atom.py:21-25 | a block that opens with a header files the same lines whatever section was in force before it |
| Reader.Zip | dele-itp-atom.py:58-63 | a header name is a key exactly when it sits at a position that also has a data word |
| Reader.ZipLastWins | dele-itp-atom.py:61-63 | a repeated header keeps the word at its last position |
| Reader.ParseMoleculetype | dele-itp-atom.py:52-70 | no lines give the empty map; without a `;` header line, a first line of two or more words gives `name` and `nrexcl` as its first two words, and a shorter one gives the empty map; with a `;` header line, the header's words are zipped with the next line's words (empty without a next line), so only the header's words can be keys |
| Reader.FirstComment | dele-itp-atom.py:78-82 | the index of the first `;` line, or the length when there is none |
| Reader.AtomFields | dele-itp-atom.py:77-86 | the field list is never empty and is the default eight fields when no line starts with `;` |
| Reader.Coerce | dele-itp-atom.py:103-109 | a token that parses neither way is kept verbatim; an int comes only from a token without `.` |
| Reader.CoerceIntText | dele-itp-atom.py:103-109 | an integer written by `str` is read back as the same integer |
| Reader.FieldValues | dele-itp-atom.py:100-109 | the record's keys are exactly the field names |
| Reader.FieldValuesLastWins | dele-itp-atom.py:100-109 | a repeated field name takes the coerced word at its last position |
| Reader.CommentOf | dele-itp-atom.py:112-114 | there is a comment exactly when the line contains `;`, and it is the stripped text after the first `;` |
| Reader.AtomLine | dele-itp-atom.py:89-116 | a line yields an atom exactly when it is not a comment and has at least as many words as fields; the key is its first word read as an id; the record holds the coerced words under the field names (the last position winning) plus `comment`, holding the line's comment, when the line has `;` |
| Reader.AtomEntries | dele-itp-atom.py:89-116 | one entry per line, in order, each that line's atom |
| Reader.TableKeys | dele-itp-atom.py:116 | the dictionary has a key exactly for the ids some entry names |
| Reader.TableLastWins | dele-itp-atom.py:116 | a later line with the same id replaces the earlier record |
| Reader.ParseAtomsFromLines | dele-itp-atom.py:72-118 | `parse_atoms` has an entry exactly for the ids of the lines it accepts, each holding the record of the last such line |
| Reader.Refs | dele-itp-atom.py:129-131 | each word is read as the atom reference it names |
| Reader.TermOf | dele-itp-atom.py:120-202 | fails, with IndexError, exactly for an angle line of three words; otherwise the term has its kind's number of references read from the first words, the next word as function code, no comment except for angles, and at most two parameters for bonds and angles |
| Reader.RowFails | dele-itp-atom.py:159-177 | a line fails exactly when it is a non-comment angle line of three words, and the error is IndexError |
| Reader.GatherFails | dele-itp-atom.py:120-202 | the decoding loop fails exactly when some line fails, and with that line's error |
| Reader.GatherAppend | dele-itp-atom.py:120-202 | the terms of two blocks of rows are those of the first followed by those of the second |
| Reader.GatherRowsFails | dele-itp-atom.py:159-177 | a section's rows fail exactly on an angles section holding a three-word line, with IndexError |
| Reader.ParseTerms | dele-itp-atom.py:120-202 | a bonded decoder fails exactly on an angles section holding a three-word line, with IndexError |
| Reader.ParseTermsAppend | dele-itp-atom.py:122-137 | decoding is line by line: two blocks of lines decode to the first block's terms followed by the second's |
| Reader.DecodeSection | dele-itp-atom.py:34-48 | only the angles decoder can fail, and then with IndexError |
| Reader.Decode | dele-itp-atom.py:32-50 | a successful decode has exactly the classified section names as keys |
| Reader.DecodeSections | dele-itp-atom.py:32-50 | the dispatch loop computes `Decode` |
| Reader.ParseItpFile | dele-itp-atom.py:5-50 | `parse_itp_file` computes `ParseItp`: classification followed by decoding |
| Reader.DecodeAll | dele-itp-atom.py:32-50 | if every section decodes on its own, the decoded dictionary is exactly those decodings |
| Reader.DecodeAt | dele-itp-atom.py:34-48 | each decoded section is the decoding of that section's lines alone |
| Reader.DecodedFromBucket | dele-itp-atom.py:5-50 | a parsed file holds a section exactly for the names with filed lines, each decoded from those lines |
| Reader.TermSectionsDecoded | dele-itp-atom.py:39-46 | each bonded section is present exactly when lines were filed under its name, and is its own decoder's output on them |
| Reader.TermsDecoded | dele-itp-atom.py:39-46 | a bonded section name maps to the terms its decoder reads from the lines filed under it |
| Reader.TableSectionsDecoded | dele-itp-atom.py:35-38 | the moleculetype and atoms sections are present exactly when lines were filed under them, and are their decoders' output |
| Reader.OtherSectionsKept | dele-itp-atom.py:47-48 | the unknown sections of a parsed file are exactly those with filed lines, each kept verbatim |
| Reader.ParseItpFailsIff | dele-itp-atom.py:43-44 | parsing fails exactly when the lines filed under `angles` include a three-word line |
| Reader.ParsedAtomsUseDefaultFields | dele-itp-atom.py:76-86 | the classifier drops every `;` line, so the field-name scan of `parse_atoms` never finds one and the default fields apply |
| Itp.RefTextOf | dele-itp-atom.py:214 | reading a token as an atom reference and writing it back gives the token |
| Itp.RefOfText | dele-itp-atom.py:236-238 | writing a reference and reading it back gives the reference |
| Text.LStrip | dele-itp-atom.py:14 | the result is a suffix that starts with a non-space, and everything removed is whitespace |
| Text.RStrip | dele-itp-atom.py:14 | the result is a prefix that ends with a non-space, and everything removed is whitespace |
| Text.Split | dele-itp-atom.py:93 | every word is non-empty and free of whitespace |
| Text.SplitJoin | dele-itp-atom.py:394 | words joined by single spaces split back into the same words |
| Text.SplitAroundSpace | dele-itp-atom.py:174 | two texts joined by a space split into the words of the first followed by those of the second |
| Text.NatToStringCanonical | dele-itp-atom.py:237 | `str(n)` is a canonical numeral whose value is `n` |
| Text.CanonicalRoundTrip | dele-itp-atom.py:214 | a canonical numeral is `str` of its value, so ids compare equal as strings exactly when equal as numbers |
| Text.ParseIntToString | dele-itp-atom.py:107 | `int(str(i)) == i` |
| Text.IndexOf | dele-itp-atom.py:113 | the first occurrence of the character, or the length when there is none |
| Deletion.NamesOf | dele-itp-atom.py:214 | one name per id, each read back as that id |
| Deletion.ChargeOf | dele-itp-atom.py:219 | only KeyError or TypeError; on success, the atom exists and its `charge` holds that number |
| Deletion.DeletedCharge | dele-itp-atom.py:217-219 | the sum fails only with KeyError or TypeError |
| Deletion.DeletedChargeStops | dele-itp-atom.py:218-219 | once a lookup fails, the rest of the list is not looked at |
| Deletion.DeletedChargeOk | dele-itp-atom.py:217-219 | the sum succeeds exactly when every listed atom has a numeric charge |
| Deletion.Remove | dele-itp-atom.py:226-228 | the survivors are the old atoms minus the deleted keys, with their records unchanged |
| Deletion.AscendingSorts | dele-itp-atom.py:232 | the sorted order lists every id of the set exactly once, strictly increasing |
| Deletion.ShiftCharge | dele-itp-atom.py:241 | succeeds exactly when the charge is numeric, and then only the charge changes, by `avg`; KeyError without a charge, TypeError for a string |
| Deletion.AdjustAlong | dele-itp-atom.py:236-241 | the loop keeps the dictionary's keys, and fails only with KeyError or TypeError |
| Deletion.AdjustAlongStops | dele-itp-atom.py:236-241 | once a charge cannot be shifted the loop ends: later atoms are not touched |
| Deletion.Renumbered | dele-itp-atom.py:233-240 | `new_atoms` has exactly the keys 1..N, and key j + 1 holds the atom at position j of the order |
| Deletion.MappingUpTo | dele-itp-atom.py:234-238 | after n steps, the mapping sends the first n old ids to 1..n and has no other key |
| Deletion.Rewrite | dele-itp-atom.py:254-256 | each reference goes through `id_mapping.get(ref, ref)`; function code, parameters and comment are unchanged |
| Deletion.RemoveStep | dele-itp-atom.py:226-228 | one more pass of the `del` loop removes one more key |
| Deletion.RenumberedStep | dele-itp-atom.py:236-240 | one more pass of the renumbering loop stores the updated record under the next new id |
| Deletion.AdjustStep | dele-itp-atom.py:236-241 | one more pass sets `nr`, then shifts the charge or stops with the error, leaving the new `nr` on the failing atom |
| Deletion.ProgressStep | dele-itp-atom.py:236-241 | the loop state after j atoms either advances to j + 1 or ends with the exception of the loop function |
| Deletion.ProgressDone | dele-itp-atom.py:236-243 | a finished loop has built exactly `Renumbered` and `Mapping` |
| Editing.ItpData.constructor | dele-itp-atom.py:32-50 | the object holds the parsed sections |
| Editing.ItpData.DeleteAtomsAndRenumber | dele-itp-atom.py:205-317 | the sections afterwards and the result (mapping or exception) are exactly those of `Transform` on the sections before |
| Editing.ItpData.DeleteListed | dele-itp-atom.py:224-228 | only the atoms section changes, to the survivors |
| Editing.ItpData.Renumber | dele-itp-atom.py:231-243 | on success the atoms section becomes the renumbered survivors and the mapping is returned; on failure the atoms keep the updates made so far and the error is returned |
| Editing.ItpData.FilterBonded | dele-itp-atom.py:245-315 | each present bonded section becomes its filtered, rewritten form; nothing else changes |
| Editing.RenumberTable | dele-itp-atom.py:233-241 | the loop computes `AdjustAlong`, and on completion `new_atoms` and `id_mapping` are `Renumbered` and `Mapping` |
| Editing.SumDeletedCharge | dele-itp-atom.py:217-219 | the loop computes `DeletedCharge` |
| Editing.FilterTerms | dele-itp-atom.py:247-259 | the loop computes `KeepTerms` |
| DeletionLaws.Moved | dele-itp-atom.py:239-241 | a moved record has the old keys plus `nr`, `nr` set to the new id, the charge raised by `avg`, and every other field unchanged |
| DeletionLaws.AdjustFrame | dele-itp-atom.py:236-241 | atoms the loop does not visit keep their records |
| DeletionLaws.ShiftedRecord | dele-itp-atom.py:239-241 | setting `nr` then shifting the charge succeeds exactly when the charge is numeric, and gives the moved record |
| DeletionLaws.AdjustRuns | dele-itp-atom.py:236-241 | the loop over distinct ids runs to the end exactly when every visited atom has a numeric charge |
| DeletionLaws.AdjustLast | dele-itp-atom.py:236-241 | after a complete loop the last atom visited holds its moved record |
| DeletionLaws.AdjustAt | dele-itp-atom.py:236-241 | after a complete loop the atom at position i holds `nr` i + 1, its charge shifted and its other fields as they were |
| DeletionLaws.RenumberedRecord | dele-itp-atom.py:236-243 | `new_atoms[i + 1]` is the moved record of the atom at position i |
| DeletionLaws.MappingLaws | dele-itp-atom.py:234-238 | `id_mapping` has exactly the listed ids as keys, sends position i to i + 1, preserves order both ways and takes values in 1..N |
| DeletionLaws.Succeeded | dele-itp-atom.py:205-317 | a normal return went through every step: the charge sum, a non-zero `atom_num`, integer survivor ids and a complete renumbering loop |
| DeletionLaws.TransformSucceedsIff | dele-itp-atom.py:214-243 | the call returns normally exactly when the atoms section exists, every listed atom has a numeric charge, `atom_num` is not zero, and every survivor has an integer id and a numeric charge |
| DeletionLaws.FailureFrame | dele-itp-atom.py:217-243 | a call that raises changes at most the atoms section; a failed charge lookup, a zero `atom_num` or a missing atoms section changes nothing; a ValueError leaves the deletions done |
| DeletionLaws.RenumberedKeys | dele-itp-atom.py:236-243 | after a normal return the atoms carry exactly the ids 1..N, N being the number of survivors |
| DeletionLaws.MappingOrder | dele-itp-atom.py:234-238 | `id_mapping` is an order-preserving bijection from the survivors' old ids onto 1..N |
| DeletionLaws.RecordsCarried | dele-itp-atom.py:236-243 | every survivor sits under its new id with `nr` set, charge shifted and every other field kept |
| DeletionLaws.CarriedAlong | dele-itp-atom.py:236-243 | after a complete loop every atom of the order is carried to its new id |
| DeletionLaws.NrMatchesKey | dele-itp-atom.py:239-240 | after a normal return every atom's `nr` equals its key |
| DeletionLaws.NrAlong | dele-itp-atom.py:236-240 | every record of `new_atoms` holds its own key as `nr` |
| DeletionLaws.DeletedGone | dele-itp-atom.py:226-238 | no listed atom is a key of `id_mapping` |
| ChargeLaws.RepeatedSpread | dele-itp-atom.py:221 | the shares of a charge spread over n atoms add back up to the charge |
| ChargeLaws.TotalAlong | dele-itp-atom.py:236-241 | adding charges along a list that names every atom once gives the section's total |
| ChargeLaws.TotalDeleted | dele-itp-atom.py:217-228 | deleting distinct present atoms removes one atom per id, and `charge_delete` is exactly the drop in total charge |
| ChargeLaws.ShiftedTotal | dele-itp-atom.py:241 | when each atom gains `avg` over its partner, the totals differ by `avg` per atom |
| ChargeLaws.RenumberedTotal | dele-itp-atom.py:236-243 | after a complete loop the section's total is the survivors' total plus `avg` per survivor |
| ChargeLaws.ChargedBefore | dele-itp-atom.py:217-241 | before a normal return every atom had a numeric charge and every listed atom was present |
| ChargeLaws.ShiftedAfter | dele-itp-atom.py:236-243 | after a normal return the total is the survivors' total plus `avg` per survivor |
| ChargeLaws.ChargeConserved | dele-itp-atom.py:216-243 | with distinct ids and `atom_num` = atoms minus deleted, as the driver computes it, a normal return leaves the total charge unchanged |
| TermLaws.KeepTermsSelects | dele-itp-atom.py:246-259 | the filter keeps, in their original order, exactly the terms mentioning no deleted atom, each rewritten through the mapping |
| TermLaws.SurvivingRef | dele-itp-atom.py:250 | a reference to an existing atom that is not deleted by text names a survivor |
| TermLaws.KeptTermsResolve | dele-itp-atom.py:246-315 | terms whose references named old atoms name renumbered atoms once filtered and rewritten |
| TermLaws.SurvivorsMapped | dele-itp-atom.py:234-243 | after a normal return every survivor's id is a mapping key whose image is a key of the new atoms section |
| TermLaws.BondedIntegrity | dele-itp-atom.py:205-317 | if every bonded reference named an existing atom, after a normal return every kept reference names an atom of the renumbered section |
| Writer.PadLeft | dele-itp-atom.py:341 | `{s:>w}`: the text right-justified to width w with spaces, never truncated |
| Writer.MoleculeBlock | dele-itp-atom.py:324-331 | KeyError exactly when the section is present but lacks `name` or `nrexcl`; otherwise a header, a comment, `name` and `nrexcl` five spaces apart, and a blank line |
| Writer.Cell | dele-itp-atom.py:341 | a column fails exactly when its field is missing (KeyError) or a fixed-point column holds a string (ValueError); otherwise the padded rendering |
| Writer.Cells | dele-itp-atom.py:341 | the columns are written exactly when each fits, and then text i is column i's padded rendering; errors are KeyError or ValueError |
| Writer.AtomRow | dele-itp-atom.py:341-344 | an atom line is written exactly when the atom has every field of the layout, with numbers for charge and mass; what it holds is stated by `AtomLineLaws.AtomRowWords` and `AtomLineLaws.AtomRowRoundTrip` |
| Writer.AtomRows | dele-itp-atom.py:339-344 | one line per listed atom; errors are KeyError or ValueError |
| Writer.AtomsBlock | dele-itp-atom.py:334-345 | an absent section writes nothing; a non-integer key raises ValueError |
| Writer.RefTexts | dele-itp-atom.py:353 | each reference is written as its text |
| Writer.Padded | dele-itp-atom.py:353 | each text right-justified to the width |
| Writer.ParameterColumns | dele-itp-atom.py:352-355 | IndexError exactly for a bond or angle with a single parameter |
| Writer.TermRow | dele-itp-atom.py:347-397 | a term line fails exactly when the term has too few references (KeyError first) or is a bond or angle with a single parameter (IndexError) |
| Writer.TermRows | dele-itp-atom.py:351-358 | one line per term |
| Writer.TermBlock | dele-itp-atom.py:348-359 | an absent or empty section writes nothing |
| WriterLaws.SplitPadded | dele-itp-atom.py:353 | a padded word splits into itself |
| WriterLaws.PaddedWords | dele-itp-atom.py:353 | padded words are cells of one word each |
| WriterLaws.SplitCells | dele-itp-atom.py:353 | cells of one word each, joined by spaces, split into those words |
| WriterLaws.StripKeepsWords | dele-itp-atom.py:14 | stripping a written line keeps its words, and the stripped line starts with the first word |
| WriterLaws.DataLineByFirstWord | dele-itp-atom.py:17-29 | a line whose first word opens neither a comment nor a header is stored by the classifier |
| WriterLaws.FrontWords | dele-itp-atom.py:353 | the reference and function-code columns hold one word each |
| WriterLaws.PairWords | dele-itp-atom.py:355 | the two parameter columns of a bond or angle hold one word each |
| WriterLaws.DihedralWords | dele-itp-atom.py:394 | the single joined parameter column of a dihedral splits into its parameters |
| WriterLaws.ParameterWords | dele-itp-atom.py:352-394 | the parameter columns split into the parameters the decoder reads |
| WriterLaws.TailWords | dele-itp-atom.py:381-382 | a single-spaced angle comment after a space adds its words to the line |
| WriterLaws.TermRowWords | dele-itp-atom.py:347-397 | the line written for a readable term splits into its references, function code, parameters and angle comment |
| WriterLaws.TermOfWords | dele-itp-atom.py:120-202 | the decoder reads those words back as the same term |
| WriterLaws.TermRowRoundTrip | dele-itp-atom.py:347-397 | a written term line is stored by the classifier and decoded as the same term |
| WriterLaws.TermRowsRoundTrip | dele-itp-atom.py:351-358 | the lines of readable terms are all stored by the classifier and decoded as the same terms in the same order |
| WriterLaws.CellsFirstFailure | dele-itp-atom.py:341 | when an atom line cannot be written, the error is that of the first column that does not fit |
| WriterLaws.SingleParameterNotWritten | dele-itp-atom.py:355 | a bond line of four words or an angle line of five is read with one parameter, and writing that term raises IndexError |
| AtomLineLaws.ColumnText | dele-itp-atom.py:341 | a column is written as its text right-justified to the column's width |
| AtomLineLaws.ShownReadsBack | dele-itp-atom.py:103-109 | an integer, or a string that parses as no number, is coerced back from its `str` unchanged |
| AtomLineLaws.ColumnsLineWords | dele-itp-atom.py:341 | the eight columns of a plain atom, joined by spaces, split into the eight column texts, end in a word and hold no `;` |
| AtomLineLaws.CommentAfter | dele-itp-atom.py:112-114 | after a front without `;`, the comment read from ` ; c` is `c` when `c` is stripped and non-empty |
| AtomLineLaws.AtomRowWords | dele-itp-atom.py:341-344 | the line of a plain atom splits into the eight column texts, then `;` and the comment's words when there is a comment |
| AtomLineLaws.AtomRowKept | dele-itp-atom.py:17-29 | the line of a plain atom is stored by the classifier, and its stripped form starts with `nr` and has the same words |
| AtomLineLaws.AtomRowComment | dele-itp-atom.py:112-114 | the comment of a plain atom is read back unchanged from its stripped line |
| AtomLineLaws.AtomRowRead | dele-itp-atom.py:89-116 | `parse_atoms` reads the stripped line of a plain atom as the atom keyed by its `nr`, with the fields coerced from the line's words and the same comment |
| AtomLineLaws.ReadValues | dele-itp-atom.py:100-114 | that record has exactly the eight default fields plus `comment` when the atom has one; each field is the coercion of its column's text; integers and plain strings in the `str` columns, and the comment, come back unchanged |
| AtomLineLaws.AtomRowRoundTrip | dele-itp-atom.py:333-344 | round trip of an atom line: written, kept by the classifier, and read by `parse_atoms` under the id `nr` holds, with the fields and comment the record had |
| AtomLineLaws.MovedRowRead | dele-itp-atom.py:239-241 | an atom renumbered by the deletion keeps a line that reads back, now under its new id, provided the shifted charge is rendered as one word |
| OutputLaws.HeaderLineRead | dele-itp-atom.py:21-23 | `[ name ]` is a header line naming `name` |
| OutputLaws.CommentLineSkipped | dele-itp-atom.py:17-18 | a `;` line is neither stored nor a header |
| OutputLaws.ColumnLinesSkipped | dele-itp-atom.py:350 | the column comment under each bonded header is skipped on reading |
| OutputLaws.BlankSkipped | dele-itp-atom.py:17 | the blank line closing a block is skipped on reading |
| OutputLaws.TermBlockRoundTrip | dele-itp-atom.py:347-359 | a bonded block is a header naming the section, a skipped comment, lines decoded as the same terms in order, and a skipped blank line |
| OutputLaws.MoleculeRowWords | dele-itp-atom.py:330 | the moleculetype line splits into the name and the exclusion count |
| OutputLaws.MoleculeFields | dele-itp-atom.py:64-69 | a data line of two words is decoded as `name` and `nrexcl` |
| OutputLaws.MoleculeHeaderRead | dele-itp-atom.py:326 | `[ moleculetype ]` is read as a header naming `moleculetype` |
| OutputLaws.MoleculeRowRead | dele-itp-atom.py:330 | the written moleculetype line is stored and decoded as the same name and exclusion count |
| OutputLaws.MoleculeRoundTrip | dele-itp-atom.py:324-331 | the moleculetype block reads back as a header naming the section, skipped lines, and one data line decoded as the same two fields |
| OutputLaws.AtomRowsAt | dele-itp-atom.py:339-344 | the atom lines are written exactly when every listed atom can be written, one per atom in the given order |
| OutputLaws.AscendingIds | dele-itp-atom.py:339 | `sorted(keys, key=int)` lists every id once, strictly increasing |
| OutputLaws.WritableAlongAll | dele-itp-atom.py:339-341 | the atoms along the sorted order can all be written exactly when every atom can |
| OutputLaws.AtomsBlockOrder | dele-itp-atom.py:333-345 | the atoms block is written exactly when every atom can be; then a header, one line per atom in strictly ascending id order, and a blank line |
| OutputLaws.Consecutive | dele-itp-atom.py:236-238 | an increasing list of n numbers between 1 and n is 1, 2, ..., n |
| OutputLaws.MovedWritable | dele-itp-atom.py:239-241 | renumbering and shifting a writable record keeps it writable |
| OutputLaws.WritableSurvives | dele-itp-atom.py:236-243 | if every atom could be written before a successful deletion, every atom can be written after it |
| OutputLaws.CountedIds | dele-itp-atom.py:339 | a section keyed by exactly 1..n has n atoms, listed in sorted order as 1, 2, ..., n |
| OutputLaws.RenumberedIds | dele-itp-atom.py:236-243 | after a successful deletion the sorted ids are 1, 2, ..., N |
| OutputLaws.RenumberedOutput | dele-itp-atom.py:339-341 | after a successful deletion the atoms block lists ids 1, 2, ..., N in order, and is written whenever every atom could be written before |
| OutputLaws.WriteIgnoresOthers | dele-itp-atom.py:399-407 | sections other than the six known ones never reach the file |
| OutputLaws.TermRowsOk | dele-itp-atom.py:351-358 | a bonded section is written in full exactly when every term can be written |
| OutputLaws.TermBlockOk | dele-itp-atom.py:348-359 | a bonded block is written exactly when every term of the section, if present, can be written |
| OutputLaws.WriteSucceedsIff | dele-itp-atom.py:319-398 | the writer finishes exactly when moleculetype has `name` and `nrexcl`, the atoms have integer ids and every field the layout needs, and every bonded term has its atoms and not exactly one bond or angle parameter |

## Left out

- File input and output: the reader takes the file's lines, and the writer returns its output lines without newlines.
- The `__main__` driver (dele-itp-atom.py:409-433), which holds a hard-coded file name and id list. Its choice `atom_num = len(atoms) - len(atoms_to_delete)` is the premise of `ChargeLaws.ChargeConserved`.
- Writer.Write: when the writer raises, Python has already written the earlier blocks to the file, and also the failing block's first lines: its header, its column comment and every atom or term line before the failing one. The model returns only the exception.
- Floating point: charges are exact reals, so rounding in `charge_delete / atom_num` and in the `+=` is not modelled.
- Float output: `str(x)`, `{x:.6f}` and `{x:.5f}` are the parameters `show` and `fixed` of `Writer.Formats`. So a written charge, mass or float field is read back only as the coercion of its rendering, not as the same number.
- AtomLineLaws.AtomRowRoundTrip: covers plain atoms only. Every column must render as one word without `;`, `nr` must be a non-negative integer, and a comment must be a non-empty stripped string. An empty comment, a field holding whitespace or `;`, and a string field that parses as a number (read back as an int or float) are not covered.
- The `re` engine: the header pattern `\[(.+)\]` is modelled directly, as the last `]` at index 2 or later (`Classifier.LastClose`).
- Reader.Coerce: `int()` and `float()` are modelled on signed decimal digits, with a decimal point and an exponent for `float()`. Underscores between digits (`1_000`, `1_0.5`) make a string here, while Python converts them.
- Deletion.Transform: an atom key is an integer id only when it is the canonical numeral `str(n)`. A key such as `05`, `+5` or `-3` is kept as text and makes the sort raise ValueError, whereas Python's `int()` accepts it. Ids are compared as strings, as the program does.
- Writer.AtomsBlock and OutputLaws.WriteSucceedsIff: an "integer id" means the canonical numeral `str(n)`. A key such as `05` counts as non-integer there, whereas the writer's `sorted(atoms.keys(), key=int)` would accept it. After a successful deletion every key is canonical, so the program's own flow never meets such a key.
- Python dictionary iteration order in the dispatch loop of `parse_itp_file` is not modelled. Only the angles decoder can fail, so the order cannot change the outcome.
- Text: whitespace is ASCII whitespace. Unicode whitespace, case and encodings are not modelled.
- Writer.AtomsBlock: its own contract covers the absent section and a non-integer key. What a written block holds is stated by `OutputLaws.AtomsBlockOrder`.
- Writer.TermBlock: its own contract covers only the empty cases. What a written block holds is stated by `OutputLaws.TermBlockRoundTrip` and `OutputLaws.TermBlockOk`.
