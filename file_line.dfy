/** The common shape of `IntegerFileLine` and `StringFileLine`: one parsed
    value of an input line, tagged with the index of the input stream
    (`fileNumber`, supplied by the `FileLine` base class) it was read from.
    Both classes set their fields once in the constructor and never change
    them, so a line is a value. */
module FileLines {

  datatype FileLine<V> = FileLine(fileNumber: nat, value: V)
}
